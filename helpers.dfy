/**
 * The pure helpers of bot/utils/helpers.py: key renaming (`to_snake_case`,
 * `normalize_keys`), the supported-shop URL check (`validate_url`) and product
 * id extraction (`extract_product_id`), with the marketplace table that the
 * price parser shares.
 */
module Helpers {
  import opened Wrappers
  import opened PyBuiltins
  import opened JsonValue

  // ---------------------------------------------------------------------------
  // to_snake_case
  // ---------------------------------------------------------------------------

  /** `re.sub(r'(?<!^)(?=[A-Z])', '_', s)`: an underscore before every ASCII
      capital letter except one at index 0. */
  function UnderscoreCapitals(s: string): (r: string)
    ensures s == [] ==> r == []
    ensures s != [] ==> r != [] && r[0] == s[0]
  {
    if s == [] then [] else [s[0]] + UnderscoreBeforeUpper(s[1..])
  }

  function UnderscoreBeforeUpper(s: string): (r: string)
    decreases |s|
  {
    if s == [] then []
    else (if IsUpper(s[0]) then ['_', s[0]] else [s[0]]) + UnderscoreBeforeUpper(s[1..])
  }

  /** `to_snake_case(s)` */
  function ToSnakeCase(s: string): (r: string)
    ensures NoUpper(r)
    ensures s == [] <==> r == []
  {
    LowerStr(UnderscoreCapitals(s))
  }

  lemma {:induction false} UnderscoreBeforeUpperConcat(s: string, t: string)
    ensures UnderscoreBeforeUpper(s + t) == UnderscoreBeforeUpper(s) + UnderscoreBeforeUpper(t)
    decreases |s|
  {
    if s == [] {
      assert s + t == t;
    } else {
      assert (s + t)[1..] == s[1..] + t;
      UnderscoreBeforeUpperConcat(s[1..], t);
    }
  }

  lemma {:induction false} UnderscoreBeforeUpperKeeps(s: string)
    requires NoUpper(s)
    ensures UnderscoreBeforeUpper(s) == s
    decreases |s|
  {
    if s != [] {
      UnderscoreBeforeUpperKeeps(s[1..]);
      assert [s[0]] + s[1..] == s;
    }
  }

  /** Read left to right, `to_snake_case` lower-cases each letter and puts an
      underscore before each capital that is not the first character. */
  lemma ToSnakeCaseAppend(s: string, c: char)
    requires s != []
    ensures ToSnakeCase(s + [c])
         == ToSnakeCase(s) + (if IsUpper(c) then "_" else "") + [Lower(c)]
  {
    assert (s + [c])[1..] == s[1..] + [c];
    UnderscoreBeforeUpperConcat(s[1..], [c]);
    var a := UnderscoreCapitals(s);
    var b: string := if IsUpper(c) then ['_', c] else [c];
    assert UnderscoreCapitals(s + [c]) == a + b;
    assert LowerStr(a + b) == LowerStr(a) + LowerStr(b);
  }

  /** A name without capitals is already in snake case. */
  lemma ToSnakeCaseKeepsSnake(s: string)
    requires NoUpper(s)
    ensures ToSnakeCase(s) == s
  {
    if s != [] {
      UnderscoreBeforeUpperKeeps(s[1..]);
      assert UnderscoreCapitals(s) == s;
    }
  }

  /** Renaming a renamed key changes nothing. */
  lemma ToSnakeCaseIdempotent(s: string)
    ensures ToSnakeCase(ToSnakeCase(s)) == ToSnakeCase(s)
  {
    ToSnakeCaseKeepsSnake(ToSnakeCase(s));
  }

  // ---------------------------------------------------------------------------
  // normalize_keys
  // ---------------------------------------------------------------------------

  /** `d[key] = value` on a dict: an existing key keeps its place and takes
      the new value, a new key goes at the end. */
  function Put(fields: seq<(string, Json)>, key: string, value: Json): (r: seq<(string, Json)>)
    ensures Lookup(r, key) == Some(value)
    ensures forall k :: k != key ==> Lookup(r, k) == Lookup(fields, k)
    ensures DistinctKeys(fields) ==> DistinctKeys(r)
    decreases |fields|
  {
    if fields == [] then [(key, value)]
    else if fields[0].0 == key then [(key, value)] + fields[1..]
    else
      var rest := Put(fields[1..], key, value);
      assert DistinctKeys(fields) ==> DistinctKeys([fields[0]] + rest) by {
        if DistinctKeys(fields) {
          DistinctTail(fields);
          DistinctCons(fields[0], rest);
        }
      }
      [fields[0]] + rest
  }

  /** The keys after the first are distinct and differ from the first. */
  lemma DistinctTail(fields: seq<(string, Json)>)
    requires fields != [] && DistinctKeys(fields)
    ensures DistinctKeys(fields[1..])
    ensures Lookup(fields[1..], fields[0].0) == None
  {
    forall i | 0 <= i < |fields[1..]| ensures fields[1..][i].0 != fields[0].0 {
      assert fields[1..][i] == fields[i + 1];
    }
  }

  /** A key that does not occur in `rest` can go in front of it. */
  lemma DistinctCons(first: (string, Json), rest: seq<(string, Json)>)
    requires DistinctKeys(rest) && Lookup(rest, first.0) == None
    ensures DistinctKeys([first] + rest)
  {
    var fields := [first] + rest;
    forall i, j | 0 <= i < j < |fields| ensures fields[i].0 != fields[j].0 {
      assert fields[j] == rest[j - 1];
      if i > 0 {
        assert fields[i] == rest[i - 1];
      }
    }
  }

  /** `normalize_keys(data)`: every dict key at every depth renamed with
      `to_snake_case`, lists mapped element by element, scalars unchanged. */
  function NormalizeKeys(data: Json): (r: Json)
    ensures data.JList? <==> r.JList?
    ensures data.JList? ==> |r.items| == |data.items|
    ensures data.JList? ==> forall i :: 0 <= i < |data.items| ==> r.items[i] == NormalizeKeys(data.items[i])
    ensures data.JObject? <==> r.JObject?
    ensures data.JObject? ==> DistinctKeys(r.fields)
    ensures !data.JList? && !data.JObject? ==> r == data
    decreases data, 1, 0
  {
    match data
    case JList(items) => JList(seq(|items|, i requires 0 <= i < |items| => NormalizeKeys(items[i])))
    case JObject(fields) => JObject(NormalizeFields(data, |fields|))
    case _ => data
  }

  /** The dict comprehension of `normalize_keys` after its first `n` pairs. */
  function NormalizeFields(obj: Json, n: nat): (r: seq<(string, Json)>)
    requires obj.JObject? && n <= |obj.fields|
    ensures DistinctKeys(r)
    decreases obj, 0, n
  {
    if n == 0 then []
    else
      var (key, value) := obj.fields[n - 1];
      Put(NormalizeFields(obj, n - 1), ToSnakeCase(key), NormalizeKeys(value))
  }

  /** The value of the last pair whose key renames to `key`. */
  function LastRenamed(fields: seq<(string, Json)>, key: string): Option<Json>
    decreases |fields|
  {
    if fields == [] then None
    else if ToSnakeCase(fields[|fields| - 1].0) == key then Some(fields[|fields| - 1].1)
    else LastRenamed(fields[..|fields| - 1], key)
  }

  lemma {:induction false} NormalizeFieldsLookup(obj: Json, n: nat, key: string)
    requires obj.JObject? && n <= |obj.fields|
    ensures Lookup(NormalizeFields(obj, n), key)
         == match LastRenamed(obj.fields[..n], key)
            case None => None
            case Some(v) => Some(NormalizeKeys(v))
    decreases n
  {
    if n > 0 {
      assert obj.fields[..n][..n - 1] == obj.fields[..n - 1];
      NormalizeFieldsLookup(obj, n - 1, key);
    }
  }

  /** After `normalize_keys`, looking up a snake-case key gives the normalized
      value of the LAST original key that renames to it: on a collision the
      later key wins. */
  lemma NormalizeKeysLookup(data: Json, key: string)
    requires data.JObject?
    ensures Lookup(NormalizeKeys(data).fields, key)
         == match LastRenamed(data.fields, key)
            case None => None
            case Some(v) => Some(NormalizeKeys(v))
  {
    NormalizeFieldsLookup(data, |data.fields|, key);
    assert data.fields[..|data.fields|] == data.fields;
  }

  /** One capital inside a lower-case name becomes an underscore and its
      lower-case letter. */
  lemma ToSnakeCaseOneCapital(a: string, c: char, b: string)
    requires a != [] && NoUpper(a) && NoUpper(b) && IsUpper(c)
    ensures ToSnakeCase(a + [c] + b) == a + "_" + [Lower(c)] + b
  {
    var s := a + [c] + b;
    assert s[1..] == a[1..] + [c] + b;
    UnderscoreBeforeUpperConcat(a[1..] + [c], b);
    UnderscoreBeforeUpperConcat(a[1..], [c]);
    UnderscoreBeforeUpperKeeps(a[1..]);
    UnderscoreBeforeUpperKeeps(b);
    assert UnderscoreCapitals(s) == a + ['_', c] + b;
  }

  // ---------------------------------------------------------------------------
  // The supported marketplaces
  // ---------------------------------------------------------------------------

  datatype Marketplace = Ozon | Wildberries | YandexMarket

  function Domain(m: Marketplace): string {
    match m
    case Ozon => "ozon.ru"
    case Wildberries => "wildberries.ru"
    case YandexMarket => "market.yandex.ru"
  }

  /** The first marketplace, in the order Ozon, Wildberries, Yandex Market,
      whose domain occurs anywhere in `url` (a plain substring test). */
  function MarketplaceIn(url: string): (r: Option<Marketplace>)
    ensures r.None? <==> forall m :: !Contains(url, Domain(m))
    ensures r.Some? ==> Contains(url, Domain(r.value))
    ensures r == Some(Wildberries) ==> !Contains(url, Domain(Ozon))
    ensures r == Some(YandexMarket) ==> !Contains(url, Domain(Ozon)) && !Contains(url, Domain(Wildberries))
  {
    if Contains(url, Domain(Ozon)) then Some(Ozon)
    else if Contains(url, Domain(Wildberries)) then Some(Wildberries)
    else if Contains(url, Domain(YandexMarket)) then Some(YandexMarket)
    else None
  }

  // ---------------------------------------------------------------------------
  // validate_url
  // ---------------------------------------------------------------------------

  /** The part of `urllib.parse.urlparse(url)` that `validate_url` reads. */
  datatype UrlParts = UrlParts(scheme: string, netloc: string)

  /** `_WHATWG_C0_CONTROL_OR_SPACE`: U+0000 to U+0020. */
  predicate IsC0OrSpace(c: char) { c <= ' ' }

  /** `_UNSAFE_URL_BYTES_TO_REMOVE`: tab, carriage return, line feed. */
  predicate IsUnsafeUrlChar(c: char) { c == '\t' || c == '\r' || c == '\n' }

  predicate IsSchemeChar(c: char) { IsAsciiAlpha(c) || IsDigit(c) || c == '+' || c == '-' || c == '.' }

  predicate IsNetlocEnd(c: char) { c == '/' || c == '?' || c == '#' }

  /** `url.lstrip(_WHATWG_C0_CONTROL_OR_SPACE)` */
  function LStripC0(s: string): (r: string)
    ensures r == [] || !IsC0OrSpace(r[0])
    ensures s == [] || !IsC0OrSpace(s[0]) ==> r == s
    decreases |s|
  {
    if s != [] && IsC0OrSpace(s[0]) then LStripC0(s[1..]) else s
  }

  /** Removes every tab, carriage return and line feed. */
  function RemoveUnsafe(s: string): (r: string)
    ensures forall i :: 0 <= i < |r| ==> !IsUnsafeUrlChar(r[i])
    ensures (forall i :: 0 <= i < |s| ==> !IsUnsafeUrlChar(s[i])) ==> r == s
    decreases |s|
  {
    if s == [] then []
    else (if IsUnsafeUrlChar(s[0]) then [] else [s[0]]) + RemoveUnsafe(s[1..])
  }

  /** The scheme and the rest of the URL: a scheme is everything before the
      first `:` when that is non-empty, starts with an ASCII letter and holds
      only scheme characters; otherwise there is none. */
  function SchemeSplit(u: string): (r: (string, string))
  {
    match IndexOf(u, ':')
    case Some(i) =>
      if i > 0 && IsAsciiAlpha(u[0]) && forall k :: 0 <= k < i ==> IsSchemeChar(u[k])
      then (LowerStr(u[..i]), u[i + 1..])
      else ("", u)
    case None => ("", u)
  }

  /** `_splitnetloc(url, 2)`: everything up to the first `/`, `?` or `#`. */
  function NetlocPrefix(s: string): (r: string)
    ensures r <= s
    ensures forall i :: 0 <= i < |r| ==> !IsNetlocEnd(r[i])
    ensures |r| == |s| || IsNetlocEnd(s[|r|])
    decreases |s|
  {
    if s == [] || IsNetlocEnd(s[0]) then [] else [s[0]] + NetlocPrefix(s[1..])
  }

  /** `urllib.parse.urlparse(url)` as far as scheme and netloc go (CPython
      3.12); an unbalanced `[` or `]` in the netloc raises `ValueError`. */
  function UrlSplit(url: string): (r: Result<UrlParts, Exception>)
    ensures r.Failure? ==> r.error == ValueError
    ensures r.Success? && r.value.netloc != [] ==> "//" <= SchemeSplit(RemoveUnsafe(LStripC0(url))).1
  {
    var u := RemoveUnsafe(LStripC0(url));
    var (scheme, rest) := SchemeSplit(u);
    if "//" <= rest then
      var netloc := NetlocPrefix(rest[2..]);
      if ('[' in netloc) != (']' in netloc) then Failure(ValueError)
      else Success(UrlParts(scheme, netloc))
    else Success(UrlParts(scheme, ""))
  }

  const SupportedDomains: seq<string> := [Domain(Ozon), Domain(Wildberries), Domain(YandexMarket)]

  predicate EndsWithAny(s: string, suffixes: seq<string>)
    decreases |suffixes|
  {
    suffixes != [] && (EndsWith(s, suffixes[0]) || EndsWithAny(s, suffixes[1..]))
  }

  /** `validate_url(url)`: the URL itself when it has a scheme and a netloc and
      the netloc, with every `www.` removed, ends with a supported domain. */
  function ValidateUrl(url: string): (r: Option<string>)
    ensures r == None || r == Some(url)
    ensures r.Some? <==>
      && UrlSplit(url).Success?
      && UrlSplit(url).value.scheme != []
      && UrlSplit(url).value.netloc != []
      && exists m :: EndsWith(ReplaceAll(UrlSplit(url).value.netloc, "www.", ""), Domain(m))
  {
    match UrlSplit(url)
    case Failure(_) => None
    case Success(parts) =>
      if parts.scheme == [] || parts.netloc == [] then None
      else
        var domain := ReplaceAll(parts.netloc, "www.", "");
        SupportedSuffix(domain);
        if EndsWithAny(domain, SupportedDomains) then Some(url) else None
  }

  /** `SUPPORTED_DOMAINS` holds the domain of every marketplace and no other. */
  lemma SupportedSuffix(domain: string)
    ensures EndsWithAny(domain, SupportedDomains) <==> exists m :: EndsWith(domain, Domain(m))
  {
    var ozon, wb, ym := Domain(Ozon), Domain(Wildberries), Domain(YandexMarket);
    assert SupportedDomains == [ozon, wb, ym];
    assert SupportedDomains[1..] == [wb, ym];
    assert SupportedDomains[2..] == [ym];
    assert SupportedDomains[3..] == [];
    assert EndsWithAny(domain, SupportedDomains) <==>
      EndsWith(domain, ozon) || EndsWith(domain, wb) || EndsWith(domain, ym);
    if EndsWith(domain, ozon) || EndsWith(domain, wb) || EndsWith(domain, ym) {
      assert EndsWith(domain, Domain(Ozon)) || EndsWith(domain, Domain(Wildberries)) || EndsWith(domain, Domain(YandexMarket));
    }
  }

  lemma {:induction false} NetlocPrefixOfHost(host: string, tail: string)
    requires forall i :: 0 <= i < |host| ==> !IsNetlocEnd(host[i])
    requires tail == [] || IsNetlocEnd(tail[0])
    ensures NetlocPrefix(host + tail) == host
    decreases |host|
  {
    if host == [] {
      assert host + tail == tail;
    } else {
      assert (host + tail)[1..] == host[1..] + tail;
      NetlocPrefixOfHost(host[1..], tail);
    }
  }

  lemma SanitizeKeeps(url: string)
    requires url != [] && !IsC0OrSpace(url[0])
    requires forall i :: 0 <= i < |url| ==> !IsUnsafeUrlChar(url[i])
    ensures RemoveUnsafe(LStripC0(url)) == url
  {
  }

  lemma SchemeSplitOf(scheme: string, rest: string)
    requires scheme != [] && IsAsciiAlpha(scheme[0])
    requires forall i :: 0 <= i < |scheme| ==> IsSchemeChar(scheme[i])
    ensures SchemeSplit(scheme + [':'] + rest) == (LowerStr(scheme), rest)
  {
    var u := scheme + [':'] + rest;
    assert ':' !in scheme;
    IndexOfAfter(scheme, ':', rest);
    assert u[..|scheme|] == scheme;
    assert u[|scheme| + 1..] == rest;
    assert forall k :: 0 <= k < |scheme| ==> IsSchemeChar(u[k]);
  }

  /** How `urlparse` splits a URL written `scheme://host` followed by a path,
      query or fragment. */
  lemma UrlSplitOfHost(scheme: string, host: string, tail: string)
    requires scheme != [] && IsAsciiAlpha(scheme[0])
    requires forall i :: 0 <= i < |scheme| ==> IsSchemeChar(scheme[i])
    requires forall i :: 0 <= i < |host| ==>
               !IsNetlocEnd(host[i]) && !IsUnsafeUrlChar(host[i]) && host[i] != '[' && host[i] != ']'
    requires tail == [] || IsNetlocEnd(tail[0])
    requires forall i :: 0 <= i < |tail| ==> !IsUnsafeUrlChar(tail[i])
    ensures UrlSplit(scheme + "://" + host + tail) == Success(UrlParts(LowerStr(scheme), host))
  {
    var rest := "//" + (host + tail);
    var url := scheme + [':'] + rest;
    assert scheme + "://" + host + tail == url;
    NoUnsafeConcat(scheme, [':'] + rest);
    NoUnsafeConcat("//", host + tail);
    NoUnsafeConcat(host, tail);
    assert [':'] + rest == [':'] + ("//" + (host + tail));
    SanitizeKeeps(url);
    SchemeSplitOf(scheme, rest);
    SlashesPrefix(host + tail);
    NetlocPrefixOfHost(host, tail);
    UrlSplitOfParts(url, LowerStr(scheme), rest, host);
  }

  lemma SlashesPrefix(s: string)
    ensures "//" <= "//" + s && ("//" + s)[2..] == s
  {
  }

  /** `UrlSplit` in terms of its steps. */
  lemma UrlSplitOfParts(url: string, scheme: string, rest: string, netloc: string)
    requires RemoveUnsafe(LStripC0(url)) == url
    requires SchemeSplit(url) == (scheme, rest)
    requires "//" <= rest && NetlocPrefix(rest[2..]) == netloc
    requires '[' !in netloc && ']' !in netloc
    ensures UrlSplit(url) == Success(UrlParts(scheme, netloc))
  {
  }

  lemma NoUnsafeConcat(a: string, b: string)
    requires forall i :: 0 <= i < |a| ==> !IsUnsafeUrlChar(a[i])
    requires forall i :: 0 <= i < |b| ==> !IsUnsafeUrlChar(b[i])
    ensures forall i :: 0 <= i < |a + b| ==> !IsUnsafeUrlChar((a + b)[i])
  {
  }

  /** For a URL written `scheme://host` followed by a path, query or fragment,
      `validate_url` accepts exactly when the host is non-empty and, with
      every `www.` removed, ends with a supported domain. */
  lemma ValidateUrlOfHost(scheme: string, host: string, tail: string)
    requires scheme != [] && IsAsciiAlpha(scheme[0])
    requires forall i :: 0 <= i < |scheme| ==> IsSchemeChar(scheme[i])
    requires forall i :: 0 <= i < |host| ==>
               !IsNetlocEnd(host[i]) && !IsUnsafeUrlChar(host[i]) && host[i] != '[' && host[i] != ']'
    requires tail == [] || IsNetlocEnd(tail[0])
    requires forall i :: 0 <= i < |tail| ==> !IsUnsafeUrlChar(tail[i])
    ensures ValidateUrl(scheme + "://" + host + tail).Some? <==>
              host != [] && exists m :: EndsWith(ReplaceAll(host, "www.", ""), Domain(m))
  {
    UrlSplitOfHost(scheme, host, tail);
  }

  /** A URL written as one literal prefix is the same text as its parts. */
  lemma UrlText(prefix: string, scheme: string, host: string, tail: string)
    requires prefix == scheme + "://" + host
    ensures prefix + tail == scheme + "://" + host + tail
  {
  }

  lemma WwwHostDomain()
    ensures EndsWith(ReplaceAll("www.ozon.ru", "www.", ""), Domain(Ozon))
  {
    assert "www." <= "www.ozon.ru";
    assert "www.ozon.ru"[4..] == "ozon.ru";
    NotContainsWithoutFirst("ozon.ru", "www.");
  }

  /** Removing `pat` keeps a last character that does not occur in `pat`. */
  lemma {:induction false} RemoveKeepsLast(s: string, pat: string)
    requires pat != [] && s != [] && s[|s| - 1] !in pat
    ensures var r := ReplaceAll(s, pat, ""); r != [] && r[|r| - 1] == s[|s| - 1]
    decreases |s|
  {
    if pat <= s {
      assert s != pat;
      RemoveKeepsLast(s[|pat|..], pat);
    } else if |s| > 1 {
      RemoveKeepsLast(s[1..], pat);
    }
  }

  /** A `www.` host of a supported marketplace is accepted, whatever path,
      query or fragment follows it. */
  lemma ValidateUrlAcceptsWww(tail: string)
    requires tail == [] || IsNetlocEnd(tail[0])
    requires forall i :: 0 <= i < |tail| ==> !IsUnsafeUrlChar(tail[i])
    ensures ValidateUrl("https://www.ozon.ru" + tail) == Some("https://www.ozon.ru" + tail)
  {
    UrlText("https://www.ozon.ru", "https", "www.ozon.ru", tail);
    ValidateUrlOfHost("https", "www.ozon.ru", tail);
    WwwHostDomain();
  }

  /** The check is a plain suffix test: any host that ends with a supported
      domain passes, a look-alike such as `xozon.ru` included. */
  lemma ValidateUrlAcceptsLookAlike(scheme: string, before: string, m: Marketplace, tail: string)
    requires scheme != [] && IsAsciiAlpha(scheme[0])
    requires forall i :: 0 <= i < |scheme| ==> IsSchemeChar(scheme[i])
    requires forall i :: 0 <= i < |before| ==>
               !IsNetlocEnd(before[i]) && !IsUnsafeUrlChar(before[i]) && before[i] != '[' && before[i] != ']'
    requires !Contains(before + Domain(m), "www.")
    requires tail == [] || IsNetlocEnd(tail[0])
    requires forall i :: 0 <= i < |tail| ==> !IsUnsafeUrlChar(tail[i])
    ensures ValidateUrl(scheme + "://" + (before + Domain(m)) + tail) == Some(scheme + "://" + (before + Domain(m)) + tail)
  {
    var domain := Domain(m);
    var host := before + domain;
    DomainPlain(m);
    PlainHost(before, domain);
    assert host[|host| - |domain|..] == domain;
    assert ReplaceAll(host, "www.", "") == host;
    assert EndsWith(ReplaceAll(host, "www.", ""), Domain(m));
    ValidateUrlOfHost(scheme, host, tail);
    assert ValidateUrl(scheme + "://" + host + tail).Some?;
  }

  /** The domains are made of lower-case letters and dots. */
  lemma DomainPlain(m: Marketplace)
    ensures forall k :: 0 <= k < |Domain(m)| ==> Domain(m)[k] == '.' || 'a' <= Domain(m)[k] <= 'z'
  {
  }

  /** A host followed by lower-case letters and dots is still a plain host. */
  lemma PlainHost(before: string, suffix: string)
    requires forall i :: 0 <= i < |before| ==>
               !IsNetlocEnd(before[i]) && !IsUnsafeUrlChar(before[i]) && before[i] != '[' && before[i] != ']'
    requires forall k :: 0 <= k < |suffix| ==> suffix[k] == '.' || 'a' <= suffix[k] <= 'z'
    ensures var host := before + suffix;
      forall i :: 0 <= i < |host| ==>
        !IsNetlocEnd(host[i]) && !IsUnsafeUrlChar(host[i]) && host[i] != '[' && host[i] != ']'
  {
    var host := before + suffix;
    forall i | 0 <= i < |host|
      ensures !IsNetlocEnd(host[i]) && !IsUnsafeUrlChar(host[i]) && host[i] != '[' && host[i] != ']'
    {
      if i < |before| {
        assert host[i] == before[i];
      } else {
        assert host[i] == suffix[i - |before|];
      }
    }
  }

  /** `host:port` holds no character that ends or brackets a netloc. */
  lemma PortNetloc(host: string, port: string)
    requires forall i :: 0 <= i < |host| ==>
               !IsNetlocEnd(host[i]) && !IsUnsafeUrlChar(host[i]) && host[i] != '[' && host[i] != ']'
    requires AllDigits(port)
    ensures var netloc := host + ":" + port;
      forall i :: 0 <= i < |netloc| ==>
        !IsNetlocEnd(netloc[i]) && !IsUnsafeUrlChar(netloc[i]) && netloc[i] != '[' && netloc[i] != ']'
  {
    var netloc := host + ":" + port;
    forall i | 0 <= i < |netloc|
      ensures !IsNetlocEnd(netloc[i]) && !IsUnsafeUrlChar(netloc[i]) && netloc[i] != '[' && netloc[i] != ']'
    {
      if i < |host| {
        assert netloc[i] == host[i];
      } else if i > |host| {
        assert netloc[i] == port[i - |host| - 1];
      }
    }
  }

  /** A domain ending in a digit ends with no supported domain. */
  lemma DigitEndUnsupported(domain: string)
    requires domain != [] && IsDigit(domain[|domain| - 1])
    ensures forall m :: !EndsWith(domain, Domain(m))
  {
    forall m ensures !EndsWith(domain, Domain(m)) {
      assert Domain(m)[|Domain(m)| - 1] == 'u';
    }
  }

  /** A netloc that carries an explicit port ends with a digit, never with a
      supported domain, so `validate_url` refuses it whatever the host. */
  lemma ValidateUrlRejectsPort(scheme: string, host: string, port: string, tail: string)
    requires scheme != [] && IsAsciiAlpha(scheme[0])
    requires forall i :: 0 <= i < |scheme| ==> IsSchemeChar(scheme[i])
    requires forall i :: 0 <= i < |host| ==>
               !IsNetlocEnd(host[i]) && !IsUnsafeUrlChar(host[i]) && host[i] != '[' && host[i] != ']'
    requires port != [] && AllDigits(port)
    requires tail == [] || IsNetlocEnd(tail[0])
    requires forall i :: 0 <= i < |tail| ==> !IsUnsafeUrlChar(tail[i])
    ensures ValidateUrl(scheme + "://" + (host + ":" + port) + tail) == None
  {
    PortNetloc(host, port);
    ValidateUrlOfHost(scheme, host + ":" + port, tail);
    PortUnsupported(host, port);
  }

  /** With a port, the netloc keeps its last digit after `www.` is removed. */
  lemma PortUnsupported(host: string, port: string)
    requires port != [] && AllDigits(port)
    ensures forall m :: !EndsWith(ReplaceAll(host + ":" + port, "www.", ""), Domain(m))
  {
    var netloc, www := host + ":" + port, "www.";
    assert IsDigit(port[|port| - 1]);
    assert netloc[|netloc| - 1] == port[|port| - 1];
    RemoveKeepsLast(netloc, www);
    DigitEndUnsupported(ReplaceAll(netloc, www, ""));
  }

  // ---------------------------------------------------------------------------
  // extract_product_id
  // ---------------------------------------------------------------------------

  /** The literal part of each marketplace's id pattern. */
  function IdPrefix(m: Marketplace): string {
    match m
    case Ozon => "/product/"
    case Wildberries => "/catalog/"
    case YandexMarket => "/product--"
  }

  /** A character of the capture group: `\d` for Wildberries, `[^/?]` for the others. */
  predicate IdChar(m: Marketplace, c: char) {
    if m == Wildberries then IsDigit(c) else c != '/' && c != '?'
  }

  /** The greedy `+` of the capture group: the longest run of id characters
      at the start of `s`. */
  function IdRun(m: Marketplace, s: string): (r: string)
    ensures r <= s
    ensures forall i :: 0 <= i < |r| ==> IdChar(m, r[i])
    ensures |r| == |s| || !IdChar(m, s[|r|])
    decreases |s|
  {
    if s == [] || !IdChar(m, s[0]) then [] else [s[0]] + IdRun(m, s[1..])
  }

  /** The pattern of `m` matches at index `i` of `url`: the literal prefix,
      then at least one id character. */
  predicate MatchesAt(m: Marketplace, url: string, i: nat) {
    var n := i + |IdPrefix(m)|;
    n < |url| && url[i..n] == IdPrefix(m) && IdChar(m, url[n])
  }

  /** `re.search`: the leftmost index at or after `i` where the pattern matches. */
  function FirstMatch(m: Marketplace, url: string, i: nat): (r: Option<nat>)
    requires i <= |url|
    ensures r.None? ==> forall j :: i <= j <= |url| ==> !MatchesAt(m, url, j)
    ensures r.Some? ==> i <= r.value < |url| && MatchesAt(m, url, r.value)
    ensures r.Some? ==> forall j :: i <= j < r.value ==> !MatchesAt(m, url, j)
    decreases |url| - i
  {
    if MatchesAt(m, url, i) then Some(i)
    else if i == |url| then None
    else FirstMatch(m, url, i + 1)
  }

  /** `extract_product_id(url)`: only the first supported domain occurring in
      the URL is tried, and its pattern's first capture is the id. */
  function ExtractProductId(url: string): (r: Option<string>)
    ensures MarketplaceIn(url).None? ==> r.None?
    ensures r.Some? ==> MarketplaceIn(url).Some? && r.value != []
  {
    match MarketplaceIn(url)
    case None => None
    case Some(m) =>
      match FirstMatch(m, url, 0)
      case None => None
      case Some(j) =>
        var n := j + |IdPrefix(m)|;
        assert url[n..][0] == url[n];
        Some(IdRun(m, url[n..]))
  }

  /** `id` is the capture of a match of `m`'s pattern at index `j`. */
  predicate CapturedAt(m: Marketplace, url: string, j: nat, id: string) {
    var n := j + |IdPrefix(m)|;
    && n + |id| <= |url|
    && url[j..n] == IdPrefix(m)
    && url[n..n + |id|] == id
    && id != []
    && (forall i :: 0 <= i < |id| ==> IdChar(m, id[i]))
    && (n + |id| == |url| || !IdChar(m, url[n + |id|]))
  }

  /** No id is found exactly when no supported domain occurs, or the first
      one that does has no match of its pattern. */
  lemma ExtractProductIdNone(url: string)
    ensures ExtractProductId(url).None? <==>
      MarketplaceIn(url).None? || forall j :: 0 <= j <= |url| ==> !MatchesAt(MarketplaceIn(url).value, url, j)
  {
    if MarketplaceIn(url).Some? {
      var m := MarketplaceIn(url).value;
      if FirstMatch(m, url, 0).Some? {
        assert ExtractProductId(url).Some?;
      }
    }
  }

  /** A found id is the capture of the leftmost match. */
  lemma ExtractProductIdFound(url: string)
    requires ExtractProductId(url).Some?
    ensures MarketplaceIn(url).Some?
    ensures var m := MarketplaceIn(url).value;
      exists j: nat :: CapturedAt(m, url, j, ExtractProductId(url).value)
        && forall k :: 0 <= k < j ==> !MatchesAt(m, url, k)
  {
    var m := MarketplaceIn(url).value;
    var j := FirstMatch(m, url, 0).value;
    CapturedAtMatch(m, url, j);
    assert CapturedAt(m, url, j, ExtractProductId(url).value);
  }

  /** Where the pattern matches, the run of id characters after the prefix
      is a capture. */
  lemma CapturedAtMatch(m: Marketplace, url: string, j: nat)
    requires MatchesAt(m, url, j)
    ensures var n := j + |IdPrefix(m)|; CapturedAt(m, url, j, IdRun(m, url[n..]))
  {
    var n := j + |IdPrefix(m)|;
    var id := IdRun(m, url[n..]);
    assert url[n..][0] == url[n];
    assert url[n..n + |id|] == id;
    if n + |id| < |url| {
      assert url[n..][|id|] == url[n + |id|];
    }
  }

  /** A Wildberries id is a run of digits; the other ids never hold `/` or `?`. */
  lemma ExtractProductIdChars(url: string)
    requires ExtractProductId(url).Some?
    ensures var id := ExtractProductId(url).value;
      && id != []
      && (MarketplaceIn(url) == Some(Wildberries) ==> AllDigits(id))
      && (MarketplaceIn(url) != Some(Wildberries) ==> '/' !in id && '?' !in id)
  {
    var id := ExtractProductId(url).value;
    var m := MarketplaceIn(url).value;
    if m != Wildberries {
      forall i | 0 <= i < |id| ensures id[i] != '/' && id[i] != '?' {
        assert IdChar(m, id[i]);
      }
    }
  }
}
