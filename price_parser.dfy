/**
 * The decision logic of `PriceParser` (bot/services/parser.py): which price
 * element is read for which shop, how its text is cleaned into a number, and
 * how every failure of the fetch becomes `None`.
 *
 * The HTML parser is a parameter `select(html, selector)` that returns the text
 * of the first element matching the CSS selector, or `None` when there is none.
 * The HTTP request is the `Fetch` value it produced.
 */
module PriceParser {
  import opened Wrappers
  import opened PyBuiltins
  import opened Helpers

  /** The CSS selector of the price element on each shop's product page. */
  function Selector(m: Marketplace): string {
    match m
    case Ozon => "span.s3m_27"
    case Wildberries => ".price-block__final-price"
    case YandexMarket => "div[data-tid=\"c3eaad93\"]"
  }

  /** A character kept by `re.sub(r'[^\d.]', '', ...)`. */
  predicate IsPriceChar(c: char) { IsDigit(c) || c == '.' }

  predicate AllPriceChars(s: string) {
    forall i :: 0 <= i < |s| ==> IsPriceChar(s[i])
  }

  /** Drops every character that is not an ASCII digit or `.`. */
  function KeepPriceChars(s: string): (r: string)
    ensures AllPriceChars(r)
    ensures |r| <= |s|
    ensures AllPriceChars(s) ==> r == s
    decreases |s|
  {
    if s == [] then []
    else (if IsPriceChar(s[0]) then [s[0]] else []) + KeepPriceChars(s[1..])
  }

  /** `re.sub(r'[^\d.]', '', text.replace(',', '.'))`: a decimal comma becomes a
      point, then everything but digits and points is dropped. */
  function CleanPriceText(text: string): (r: string)
    ensures AllPriceChars(r)
  {
    KeepPriceChars(ReplaceAll(text, ",", "."))
  }

  lemma {:induction false} KeepPriceCharsConcat(a: string, b: string)
    ensures KeepPriceChars(a + b) == KeepPriceChars(a) + KeepPriceChars(b)
    decreases |a|
  {
    if a == [] {
      assert a + b == b;
    } else {
      var c: string := if IsPriceChar(a[0]) then [a[0]] else [];
      assert (a + b)[0] == a[0];
      assert (a + b)[1..] == a[1..] + b;
      KeepPriceCharsConcat(a[1..], b);
      assert KeepPriceChars(a + b) == c + KeepPriceChars(a[1..] + b);
      assert KeepPriceChars(a) == c + KeepPriceChars(a[1..]);
    }
  }

  /** Cleaning works piece by piece. */
  lemma CleanPriceTextConcat(a: string, b: string)
    ensures CleanPriceText(a + b) == CleanPriceText(a) + CleanPriceText(b)
  {
    ReplaceCharAppend(a, b, ',', '.');
    KeepPriceCharsConcat(ReplaceAll(a, ",", "."), ReplaceAll(b, ",", "."));
  }

  /** Cleaning a cleaned text changes nothing. */
  lemma CleanPriceTextIdempotent(text: string)
    ensures CleanPriceText(CleanPriceText(text)) == CleanPriceText(text)
  {
    var c := CleanPriceText(text);
    assert !Contains(c, ",") by {
      assert ',' !in c;
      NotContainsWithoutFirst(c, ",");
    }
  }

  /** Text without digits, points or commas cleans to nothing. */
  lemma {:induction false} CleanPriceTextOfNoise(s: string)
    requires forall i :: 0 <= i < |s| ==> !IsPriceChar(s[i]) && s[i] != ','
    ensures CleanPriceText(s) == []
    decreases |s|
  {
    if s != [] {
      assert s == [s[0]] + s[1..];
      CleanPriceTextConcat([s[0]], s[1..]);
      CleanPriceTextOfNoise(s[1..]);
      assert !Contains([s[0]], ",") by {
        NotContainsWithoutFirst([s[0]], ",");
      }
    }
  }

  /** Digits clean to themselves. */
  lemma CleanPriceTextOfDigits(s: string)
    requires AllDigits(s)
    ensures CleanPriceText(s) == s
  {
    assert ',' !in s;
    NotContainsWithoutFirst(s, ",");
  }

  /** Character by character: a comma is read as a point, and then every
      character is kept exactly when it is a digit or a point. */
  lemma CleanPriceTextChars(text: string)
    ensures CleanPriceText(text)
         == KeepPriceChars(seq(|text|, i requires 0 <= i < |text| => if text[i] == ',' then '.' else text[i]))
  {
    var swapped := seq(|text|, i requires 0 <= i < |text| => if text[i] == ',' then '.' else text[i]);
    ReplaceChar(text, ',', '.');
    assert [','] == "," && ['.'] == ".";
    assert ReplaceAll(text, ",", ".") == swapped;
  }

  /** A lone decimal comma cleans to a point. */
  lemma CleanPriceTextOfComma()
    ensures CleanPriceText(",") == "."
  {
    var comma := ",";
    CleanPriceTextChars(comma);
    assert seq(|comma|, i requires 0 <= i < |comma| => if comma[i] == ',' then '.' else comma[i]) == ".";
  }

  /** A price written with a decimal comma, like `1299,50`, cleans to the
      same digits around a point. */
  lemma CommaPrice(a: string, b: string)
    requires AllDigits(a) && AllDigits(b)
    ensures CleanPriceText(a + "," + b) == a + "." + b
  {
    CleanPriceTextConcat(a + ",", b);
    CleanPriceTextConcat(a, ",");
    CleanPriceTextOfDigits(a);
    CleanPriceTextOfDigits(b);
    CleanPriceTextOfComma();
  }

  function Pow10(n: nat): (r: nat)
    ensures r >= 1
  {
    if n == 0 then 1 else 10 * Pow10(n - 1)
  }

  /** `float(s)` for a string of digits and points: an integer part and an
      optional fraction, not both empty; a second point or an empty string
      raises `ValueError` (`None`). Binary rounding is not modelled. */
  function ParseDecimal(s: string): (r: Option<real>)
    requires AllPriceChars(s)
    ensures r.Some? ==> r.value >= 0.0
    ensures r.Some? ==> exists i :: 0 <= i < |s| && IsDigit(s[i])
  {
    match IndexOf(s, '.')
    case None =>
      if s == [] then None
      else
        assert AllDigits(s);
        assert IsDigit(s[0]);
        Some(DigitsValue(s) as real)
    case Some(i) =>
      var whole := s[..i];
      var frac := s[i + 1..];
      if '.' in frac || (whole == [] && frac == []) then None
      else
        assert AllDigits(whole) by {
          forall k | 0 <= k < |whole| ensures IsDigit(whole[k]) {
            assert whole[k] == s[k] && whole[k] in whole;
          }
        }
        assert AllDigits(frac) by {
          forall k | 0 <= k < |frac| ensures IsDigit(frac[k]) {
            assert frac[k] == s[i + 1 + k] && frac[k] in frac;
          }
        }
        assert whole != [] ==> IsDigit(s[0]);
        assert frac != [] ==> IsDigit(s[i + 1]);
        Some(DigitsValue(whole) as real + (DigitsValue(frac) as real) / (Pow10(|frac|) as real))
  }

  lemma NoPointInDigits(s: string)
    requires AllDigits(s)
    ensures AllPriceChars(s) && '.' !in s
  {
    forall k | 0 <= k < |s| ensures s[k] != '.' {
      assert IsDigit(s[k]);
    }
  }

  /** `float(str(n)) == n` for a whole number of roubles. */
  lemma ParseDecimalOfNat(n: nat)
    ensures AllPriceChars(NatToDecimal(n))
    ensures ParseDecimal(NatToDecimal(n)) == Some(n as real)
  {
    var s := NatToDecimal(n);
    NoPointInDigits(s);
    NatToDecimalValue(n);
  }

  /** What the request produced: an exception (connection error, timeout,
      invalid URL), or a response with its status code and body text. */
  datatype Fetch = FetchFailed | Fetched(status: int, body: string)

  /** `_parse_price(url, html)`: `Success(None)` for an unsupported shop or a
      missing price element, `Failure(ValueError)` when the cleaned text is no
      number, the price otherwise. */
  function ParsePrice(url: string, html: string, select: (string, string) -> Option<string>)
    : (r: Result<Option<real>, Exception>)
    ensures MarketplaceIn(url).None? ==> r == Success(None)
    ensures MarketplaceIn(url).Some? && select(html, Selector(MarketplaceIn(url).value)).None? ==> r == Success(None)
    ensures r.Failure? ==> r.error == ValueError
    ensures r.Success? && r.value.Some? ==>
      && MarketplaceIn(url).Some?
      && select(html, Selector(MarketplaceIn(url).value)).Some?
      && r.value == ParseDecimal(CleanPriceText(select(html, Selector(MarketplaceIn(url).value)).value))
    ensures MarketplaceIn(url).Some? && select(html, Selector(MarketplaceIn(url).value)).Some? ==>
      var price := ParseDecimal(CleanPriceText(select(html, Selector(MarketplaceIn(url).value)).value));
      r == (if price.Some? then Success(price) else Failure(ValueError))
  {
    match MarketplaceIn(url)
    case None => Success(None)
    case Some(m) =>
      match select(html, Selector(m))
      case None => Success(None)
      case Some(text) =>
        match ParseDecimal(CleanPriceText(text))
        case None => Failure(ValueError)
        case Some(price) => Success(Some(price))
  }

  /** `get_price(url)`: the parsed price of a page fetched with status 200;
      `None` for any other status and for any exception on the way. */
  function GetPrice(url: string, fetch: Fetch, select: (string, string) -> Option<string>): (r: Option<real>)
    ensures fetch.FetchFailed? ==> r.None?
    ensures fetch.Fetched? && fetch.status != 200 ==> r.None?
    ensures MarketplaceIn(url).None? ==> r.None?
    ensures r.Some? ==> r.value >= 0.0
    ensures r.Some? ==>
      fetch.Fetched? && fetch.status == 200 && ParsePrice(url, fetch.body, select) == Success(r)
    ensures fetch.Fetched? && fetch.status == 200 ==>
      var parsed := ParsePrice(url, fetch.body, select);
      r == (if parsed.Success? then parsed.value else None)
  {
    match fetch
    case FetchFailed => None
    case Fetched(status, body) =>
      if status != 200 then None
      else
        match ParsePrice(url, body, select)
        case Failure(_) => None
        case Success(price) => price
  }

  /** A price shown with a space between thousands and a currency sign, like
      `1 000 ₽`, is read as the number its digits spell. */
  lemma ParseGroupedPrice(url: string, html: string, select: (string, string) -> Option<string>,
                          thousands: string, units: string, sign: string)
    requires MarketplaceIn(url).Some?
    requires select(html, Selector(MarketplaceIn(url).value)) == Some(thousands + " " + units + " " + sign)
    requires thousands != [] && AllDigits(thousands) && AllDigits(units)
    requires forall i :: 0 <= i < |sign| ==> !IsPriceChar(sign[i]) && sign[i] != ','
    ensures ParsePrice(url, html, select) == Success(Some(DigitsValue(thousands + units) as real))
  {
    var digits := thousands + units;
    CleanGroupedPrice(thousands, units, sign);
    NoPointInDigits(digits);
    assert IndexOf(digits, '.') == None;
    assert ParseDecimal(digits) == Some(DigitsValue(digits) as real);
  }

  lemma CleanGroupedPrice(thousands: string, units: string, sign: string)
    requires AllDigits(thousands) && AllDigits(units)
    requires forall i :: 0 <= i < |sign| ==> !IsPriceChar(sign[i]) && sign[i] != ','
    ensures CleanPriceText(thousands + " " + units + " " + sign) == thousands + units
  {
    var t1 := thousands + " ";
    var t2 := t1 + units;
    var t3 := t2 + " ";
    CleanPriceTextOfDigits(thousands);
    CleanPriceTextOfDigits(units);
    CleanPriceTextOfNoise(" ");
    CleanPriceTextOfNoise(sign);
    CleanPriceTextConcat(thousands, " ");
    assert CleanPriceText(t1) == thousands;
    CleanPriceTextConcat(t1, units);
    assert CleanPriceText(t2) == thousands + units;
    CleanPriceTextConcat(t2, " ");
    assert CleanPriceText(t3) == thousands + units;
    CleanPriceTextConcat(t3, sign);
  }

  /** The page text `1 000 ₽` gives the price 1000. */
  lemma ParseThousandRoubles(url: string, html: string, select: (string, string) -> Option<string>)
    requires MarketplaceIn(url).Some?
    requires select(html, Selector(MarketplaceIn(url).value)) == Some("1 000 ₽")
    ensures ParsePrice(url, html, select) == Success(Some(1000.0))
    ensures GetPrice(url, Fetched(200, html), select) == Some(1000.0)
  {
    assert "1 000 ₽" == "1" + " " + "000" + " " + "₽";
    ParseGroupedPrice(url, html, select, "1", "000", "₽");
    ThousandValue();
  }

  lemma ThousandValue()
    ensures DigitsValue("1" + "000") == 1000
  {
    assert "1" + "000" == "1000";
    assert "1000"[..3] == "100";
    assert "100"[..2] == "10";
    assert "10"[..1] == "1";
  }

  /** An element text without a single digit, point or comma makes `get_price`
      return `None` rather than raise. */
  lemma GetPriceSwallowsValueError(url: string, body: string, select: (string, string) -> Option<string>)
    requires MarketplaceIn(url).Some?
    requires select(body, Selector(MarketplaceIn(url).value)).Some?
    requires var text := select(body, Selector(MarketplaceIn(url).value)).value;
      forall i :: 0 <= i < |text| ==> !IsPriceChar(text[i]) && text[i] != ','
    ensures ParsePrice(url, body, select) == Failure(ValueError)
    ensures GetPrice(url, Fetched(200, body), select) == None
  {
    CleanPriceTextOfNoise(select(body, Selector(MarketplaceIn(url).value)).value);
    assert ParseDecimal([]) == None;
  }
}
