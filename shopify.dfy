/**
 * The client side of the shop connection (js/shopify.js): the shop-name
 * normaliser and the order fetch with its credential guard, bounded retry
 * and record mapping. The network is a parameter: `network(k)` is what the
 * k-th request (counting from 0) comes back with.
 */
module Shopify {
  import opened NumberText

  // ---------------------------------------------------------------------------
  // formatShopName
  // ---------------------------------------------------------------------------

  const Suffix := ".myshopify.com"

  /** The characters String.prototype.trim removes: ECMAScript WhiteSpace and
    * LineTerminator. */
  predicate IsWhiteSpace(c: char) {
    c == ' ' || c == '\t' || c == '\n' || c == '\r' || c == '\U{000B}' || c == '\U{000C}'
    || c == '\U{00A0}' || c == '\U{1680}' || ('\U{2000}' <= c <= '\U{200A}')
    || c == '\U{2028}' || c == '\U{2029}' || c == '\U{202F}' || c == '\U{205F}'
    || c == '\U{3000}' || c == '\U{FEFF}'
  }

  predicate StartsWith(s: string, p: string) {
    |p| <= |s| && s[..|p|] == p
  }

  predicate EndsWith(s: string, p: string) {
    |p| <= |s| && s[|s| - |p|..] == p
  }

  /** `r` is `s` with some leading white space dropped. */
  predicate DropsLeading(s: string, r: string) {
    |r| <= |s| && r == s[|s| - |r|..]
    && forall k :: 0 <= k < |s| - |r| ==> IsWhiteSpace(s[k])
  }

  /** `r` is `s` with some trailing white space dropped. */
  predicate DropsTrailing(s: string, r: string) {
    |r| <= |s| && r == s[..|r|]
    && forall k :: |r| <= k < |s| ==> IsWhiteSpace(s[k])
  }

  /** Drops leading white space: what is left is a suffix of `s` that does not
    * start with white space, and everything dropped was white space. */
  function TrimStart(s: string): (r: string)
    ensures DropsLeading(s, r)
    ensures r != [] ==> !IsWhiteSpace(r[0])
  {
    if |s| > 0 && IsWhiteSpace(s[0]) then
      var t := TrimStart(s[1..]);
      assert s[1..][|s| - 1 - |t|..] == s[|s| - |t|..];
      assert forall k :: 1 <= k < |s| - |t| ==> s[k] == s[1..][k - 1];
      t
    else
      s
  }

  /** Drops trailing white space: what is left is a prefix of `s` that does not
    * end with white space, and everything dropped was white space. */
  function TrimEnd(s: string): (r: string)
    ensures DropsTrailing(s, r)
    ensures r != [] ==> !IsWhiteSpace(r[|r| - 1])
  {
    if |s| > 0 && IsWhiteSpace(s[|s| - 1]) then TrimEnd(s[..|s| - 1]) else s
  }

  /** `r` is the slice of `s` starting at `i`, and every character of `s`
    * outside that slice is white space. */
  predicate PaddedBy(s: string, r: string, i: int) {
    0 <= i <= |s| - |r| && r == s[i..i + |r|]
    && forall k | 0 <= k < |s| && (k < i || i + |r| <= k) :: IsWhiteSpace(s[k])
  }

  /** `trim()`: `s` with its leading and trailing white space removed, and
    * nothing else. */
  function Trim(s: string): (r: string)
    ensures r != [] ==> !IsWhiteSpace(r[0]) && !IsWhiteSpace(r[|r| - 1])
    ensures |r| <= |s|
    ensures exists i :: PaddedBy(s, r, i)
  {
    TrimPadding(s);
    TrimEnd(TrimStart(s))
  }

  lemma TrimPadding(s: string)
    ensures PaddedBy(s, TrimEnd(TrimStart(s)), |s| - |TrimStart(s)|)
  {
    var t := TrimStart(s);
    PaddedByParts(s, t, TrimEnd(t));
  }

  /** Dropping white space from the front and then from the back leaves a
    * slice padded by white space. */
  lemma PaddedByParts(s: string, t: string, u: string)
    requires DropsLeading(s, t) && DropsTrailing(t, u)
    ensures PaddedBy(s, u, |s| - |t|)
  {
    var i := |s| - |t|;
    assert s[i..i + |u|] == t[..|u|];
    forall k | 0 <= k < |s| && (k < i || i + |u| <= k)
      ensures IsWhiteSpace(s[k])
    {
      if i <= k {
        assert s[k] == t[k - i];
      }
    }
  }

  predicate IsUpper(c: char) {
    ('A' <= c <= 'Z') || ('\U{00C0}' <= c <= '\U{00DE}' && c != '\U{00D7}')
  }

  predicate NoUpper(s: string) {
    forall i :: 0 <= i < |s| ==> !IsUpper(s[i])
  }

  /** Lower case of one character (ASCII and Latin-1 letters). */
  function LowerChar(c: char): (d: char)
    ensures !IsUpper(d)
    ensures IsUpper(c) ==> d as int == c as int + 32
    ensures !IsUpper(c) ==> d == c
  {
    if IsUpper(c) then (c as int + 32) as char else c
  }

  function Lower(s: string): (r: string)
    ensures |r| == |s|
    ensures forall i :: 0 <= i < |s| ==> r[i] == LowerChar(s[i])
  {
    seq(|s|, i requires 0 <= i < |s| => LowerChar(s[i]))
  }

  function StripPrefix(s: string, p: string): (r: string)
    ensures StartsWith(s, p) ==> p + r == s
    ensures !StartsWith(s, p) ==> r == s
  {
    if StartsWith(s, p) then s[|p|..] else s
  }

  /** `s.indexOf(c)`: the first index holding `c`, or -1. */
  function IndexOf(s: string, c: char): (k: int)
    ensures -1 <= k < |s|
    ensures k == -1 <==> c !in s
    ensures k >= 0 ==> s[k] == c && c !in s[..k]
  {
    if s == [] then -1
    else if s[0] == c then 0
    else
      var k := IndexOf(s[1..], c);
      assert s[1..][..k + 1] == s[1..k + 2] by { if k >= 0 {} }
      if k == -1 then -1 else k + 1
  }

  /** The host part: everything from the first '/' on is dropped, but only
    * when that slash is not the first character. */
  function CutAtSlash(s: string): (r: string)
    ensures StartsWith(s, r)
    ensures r == s || (r != [] && |r| < |s| && s[|r|] == '/' && '/' !in r)
    ensures '/' !in s ==> r == s
    ensures s != [] && s[0] == '/' ==> r == s
    ensures '/' in r ==> r == s && r[0] == '/'
  {
    var k := IndexOf(s, '/');
    if k > 0 then s[..k] else s
  }

  /** The shop name with white space, case, scheme and path removed. */
  function Cleaned(name: string): (r: string)
    ensures NoUpper(r)
    ensures '/' in r ==> r[0] == '/'
  {
    var lowered := Lower(Trim(name));
    StripPrefixKeepsNoUpper(lowered, "http://");
    var noHttp := StripPrefix(lowered, "http://");
    StripPrefixKeepsNoUpper(noHttp, "https://");
    var host := StripPrefix(noHttp, "https://");
    CutAtSlashKeepsNoUpper(host);
    CutAtSlash(host)
  }

  /** The suffix step of `formatShopName`: ".myshopify.com" is appended
    * unless the host already ends with it. */
  function WithSuffix(c: string): (r: string)
    ensures r == c || r == c + Suffix
    ensures EndsWith(r, Suffix)
    ensures StartsWith(r, c)
    ensures |r| == |c| <==> EndsWith(c, Suffix)
    ensures |r| <= |c| + |Suffix|
  {
    if EndsWith(c, Suffix) then
      assert c[..|c|] == c;
      c
    else
      AppendSuffix(c);
      c + Suffix
  }

  /** `formatShopName(name)`: the cleaned name, with ".myshopify.com"
    * appended unless it already ends with it. */
  function FormatShopName(name: string): (r: string)
    ensures r == Cleaned(name) || r == Cleaned(name) + Suffix
    ensures EndsWith(r, Suffix)
    ensures StartsWith(r, Cleaned(name))
    ensures |r| == |Cleaned(name)| <==> EndsWith(Cleaned(name), Suffix)
    ensures |r| <= |Cleaned(name)| + |Suffix|
  {
    WithSuffix(Cleaned(name))
  }

  lemma AppendSuffix(c: string)
    ensures EndsWith(c + Suffix, Suffix) && StartsWith(c + Suffix, c)
  {
    var r := c + Suffix;
    assert r[|r| - |Suffix|..] == Suffix;
    assert r[..|c|] == c;
  }

  lemma StripPrefixKeepsNoUpper(s: string, p: string)
    requires NoUpper(s)
    ensures NoUpper(StripPrefix(s, p))
  {
    if StartsWith(s, p) {
      var r := StripPrefix(s, p);
      assert forall i :: 0 <= i < |r| ==> r[i] == s[|p| + i];
    }
  }

  lemma CutAtSlashKeepsNoUpper(s: string)
    requires NoUpper(s)
    ensures NoUpper(CutAtSlash(s))
  {
    var r := CutAtSlash(s);
    assert forall i :: 0 <= i < |r| ==> r[i] == s[i];
  }

  lemma LowerCharKeepsWhiteSpace(c: char)
    ensures IsWhiteSpace(LowerChar(c)) <==> IsWhiteSpace(c)
  {
  }

  lemma {:induction false} TrimStartOfTrimmed(s: string)
    requires s != [] ==> !IsWhiteSpace(s[0])
    ensures TrimStart(s) == s
  {
  }

  lemma {:induction false} TrimEndOfTrimmed(s: string)
    requires s != [] ==> !IsWhiteSpace(s[|s| - 1])
    ensures TrimEnd(s) == s
  {
  }

  /** Lower-casing a trimmed string leaves nothing more to trim. */
  lemma {:induction false} LowerOfTrimmedIsTrimmed(s: string)
    ensures Trim(Lower(Trim(s))) == Lower(Trim(s))
  {
    var t := Trim(s);
    var l := Lower(t);
    if l != [] {
      LowerCharKeepsWhiteSpace(t[0]);
      LowerCharKeepsWhiteSpace(t[|t| - 1]);
    }
    TrimStartOfTrimmed(l);
    TrimEndOfTrimmed(l);
  }

  lemma {:induction false} LowerIdempotent(s: string)
    ensures Lower(Lower(s)) == Lower(s)
  {
  }

  /** The input is trimmed and lower-cased before anything else happens: the
    * result depends only on the trimmed, lower-cased input. */
  lemma {:induction false} FormatShopNameNormalizesFirst(name: string)
    ensures FormatShopName(Lower(Trim(name))) == FormatShopName(name)
  {
    LowerOfTrimmedIsTrimmed(name);
    LowerIdempotent(Trim(name));
  }

  lemma LowerOfLowered(s: string)
    requires NoUpper(s)
    ensures Lower(s) == s
  {
  }

  lemma TrimStartStep(s: string)
    requires s != [] && IsWhiteSpace(s[0])
    ensures TrimStart(s) == TrimStart(s[1..])
  {
  }

  lemma TrimEndStep(s: string)
    requires s != [] && IsWhiteSpace(s[|s| - 1])
    ensures TrimEnd(s) == TrimEnd(s[..|s| - 1])
  {
  }

  /** Cleaned, one step at a time. */
  lemma CleanedSteps(name: string, t: string, l: string, b: string, c: string)
    requires Trim(name) == t && Lower(t) == l
    requires StripPrefix(StripPrefix(l, "http://"), "https://") == b && CutAtSlash(b) == c
    ensures Cleaned(name) == c
  {
  }

  lemma FormatOfCleaned(name: string, c: string)
    requires Cleaned(name) == c
    ensures FormatShopName(name) == if EndsWith(c, Suffix) then c else c + Suffix
  {
  }

  /** A string whose first character differs from the prefix's does not start with it. */
  lemma NotStartsWithByFirst(s: string, p: string)
    requires p != [] && (s == [] || s[0] != p[0])
    ensures !StartsWith(s, p)
  {
    if |p| <= |s| {
      assert s[..|p|][0] == s[0];
    }
  }

  lemma TrimmedAlready(s: string)
    requires s != [] ==> !IsWhiteSpace(s[0]) && !IsWhiteSpace(s[|s| - 1])
    ensures Trim(s) == s
  {
    TrimStartOfTrimmed(s);
    TrimEndOfTrimmed(s);
  }

  lemma NoUpperAppend(a: string, b: string)
    requires NoUpper(a) && NoUpper(b)
    ensures NoUpper(a + b)
  {
  }

  lemma SuffixFacts()
    ensures |Suffix| == 14 && NoUpper(Suffix) && '/' !in Suffix
    ensures Suffix[0] == '.' && Suffix[13] == 'm'
  {
  }

  /** A name that is already trimmed, lower-case and starts with neither
    * scheme is only cut at its first slash. */
  lemma CleanedOfPlain(s: string)
    requires s != [] ==> !IsWhiteSpace(s[0]) && !IsWhiteSpace(s[|s| - 1])
    requires NoUpper(s)
    requires s == [] || s[0] != 'h'
    ensures Cleaned(s) == CutAtSlash(s)
  {
    assert Trim(s) == s by {
      TrimmedAlready(s);
    }
    assert Lower(s) == s by {
      LowerOfLowered(s);
    }
    assert StripPrefix(StripPrefix(s, "http://"), "https://") == s by {
      NotStartsWithByFirst(s, "http://");
      NotStartsWithByFirst(s, "https://");
    }
    var c := CutAtSlash(s);
    CleanedSteps(s, s, s, s, c);
  }

  lemma ExampleTrim(name: string)
    requires name == " HTTPS://Ab/x "
    ensures Trim(name) == "HTTPS://Ab/x"
  {
    var t := name[1..13];
    TrimStartStep(name);
    TrimStartOfTrimmed(name[1..]);
    TrimEndStep(name[1..]);
    assert name[1..][..12] == t;
    TrimEndOfTrimmed(t);
    assert t == "HTTPS://Ab/x";
  }

  lemma ExampleLower(t: string)
    requires t == "HTTPS://Ab/x"
    ensures Lower(t) == "https://ab/x"
  {
  }

  lemma ExampleStrip(l: string)
    requires l == "https://ab/x"
    ensures StripPrefix(StripPrefix(l, "http://"), "https://") == "ab/x"
  {
    assert StripPrefix(l, "http://") == l by {
      assert l[..7][4] == 's';
    }
    assert l[..8] == "https://";
    assert l[8..] == "ab/x";
  }

  lemma ExampleCut(host: string)
    requires host == "ab/x"
    ensures CutAtSlash(host) == "ab"
  {
    assert IndexOf(host, '/') == 2;
    assert host[..2] == "ab";
  }

  lemma CleanedExample(name: string)
    requires name == " HTTPS://Ab/x "
    ensures Cleaned(name) == "ab"
  {
    ExampleTrim(name);
    ExampleLower("HTTPS://Ab/x");
    ExampleStrip("https://ab/x");
    ExampleCut("ab/x");
    CleanedSteps(name, "HTTPS://Ab/x", "https://ab/x", "ab/x", "ab");
  }

  /** White space, case, scheme and path are removed. */
  lemma FormatShopNameExample(name: string)
    requires name == " HTTPS://Ab/x "
    ensures FormatShopName(name) == "ab" + Suffix
  {
    CleanedExample(name);
    SuffixFacts();
    FormatOfCleaned(name, "ab");
  }

  /** "http://" is looked for before "https://", so both are stripped. */
  lemma FormatShopNameBothSchemes(name: string)
    requires name == "http://https://x"
    ensures FormatShopName(name) == "x" + Suffix
  {
    var mid := name[7..];
    var host := name[15..];
    TrimmedAlready(name);
    assert NoUpper(name);
    LowerOfLowered(name);
    assert StripPrefix(name, "http://") == mid by {
      assert name[..7] == "http://";
    }
    assert StripPrefix(mid, "https://") == host by {
      assert mid[..8] == "https://";
    }
    assert host == "x";
    CleanedSteps(name, name, name, host, host);
    SuffixFacts();
    FormatOfCleaned(name, host);
  }

  /** A slash at index 0 is kept together with the rest of the string. */
  lemma FormatShopNameLeadingSlash(name: string)
    requires name == "/shop/orders"
    ensures FormatShopName(name) == name + Suffix
  {
    assert NoUpper(name);
    CleanedOfPlain(name);
    SuffixFacts();
    FormatOfCleaned(name, name);
  }

  lemma FirstPassKeepsSpace(name: string)
    requires name == "http:// x"
    ensures FormatShopName(name) == " x" + Suffix
  {
    var rest := name[7..];
    TrimmedAlready(name);
    assert NoUpper(name);
    LowerOfLowered(name);
    assert StripPrefix(name, "http://") == rest by {
      assert name[..7] == "http://";
    }
    assert rest == " x";
    NotStartsWithByFirst(rest, "https://");
    CleanedSteps(name, name, name, rest, rest);
    SuffixFacts();
    FormatOfCleaned(name, rest);
  }

  /** Cleaned looks at the name only through its trimmed form. */
  lemma CleanedOfSameTrim(name: string, other: string)
    requires Trim(name) == Trim(other)
    ensures Cleaned(name) == Cleaned(other)
  {
  }

  /** One leading space in front of a plain host without a path is trimmed
    * away and nothing else changes. */
  lemma CleanedOfSpacedPlain(t: string)
    requires t != [] && !IsWhiteSpace(t[0]) && !IsWhiteSpace(t[|t| - 1])
    requires NoUpper(t) && t[0] != 'h' && '/' !in t
    ensures Cleaned([' '] + t) == t
  {
    var s := [' '] + t;
    assert Trim(s) == t by {
      TrimStartStep(s);
      assert s[1..] == t;
      TrimmedAlready(t);
    }
    TrimmedAlready(t);
    CleanedOfSameTrim(s, t);
    CleanedOfPlain(t);
  }

  lemma PlainHostFacts(host: string)
    requires host == "x" + Suffix
    ensures host != [] && host[0] == 'x' && host[|host| - 1] == 'm'
    ensures NoUpper(host) && '/' !in host && EndsWith(host, Suffix)
  {
    SuffixFacts();
    NoUpperAppend("x", Suffix);
    forall i | 0 <= i < |host|
      ensures host[i] != '/'
    {
      if i > 0 {
        assert host[i] == Suffix[i - 1];
      }
    }
    assert host[|host| - |Suffix|..] == Suffix;
  }

  lemma SecondPassTrimsSpace(once: string)
    requires once == " x" + Suffix
    ensures FormatShopName(once) == "x" + Suffix
  {
    var host := "x" + Suffix;
    PlainHostFacts(host);
    assert Cleaned(once) == host by {
      assert once == [' '] + host;
      CleanedOfSpacedPlain(host);
    }
    FormatOfCleaned(once, host);
  }

  /** formatShopName is not idempotent: white space behind the scheme survives
    * the first pass (trim runs before the scheme is stripped) and is only
    * trimmed on a second pass. */
  lemma FormatShopNameNotIdempotent(name: string)
    requires name == "http:// x"
    ensures FormatShopName(name) == " x" + Suffix
    ensures FormatShopName(FormatShopName(name)) == "x" + Suffix
  {
    FirstPassKeepsSpace(name);
    SecondPassTrimsSpace(FormatShopName(name));
  }

  // ---------------------------------------------------------------------------
  // fetchOrders
  // ---------------------------------------------------------------------------

  const MissingCredentials := "Missing shop name or access token"

  /** An order as the simplified-orders endpoint sends it: the numeric id,
    * the display name and the creation timestamp text. */
  datatype WireOrder = WireOrder(id: int, name: string, createdAt: string)

  /** An order as the application keeps it after fetching. The date is carried
    * as the wire timestamp text. */
  datatype FetchedOrder = FetchedOrder(id: string, orderNumber: string, orderDate: string)

  /** What reading the JSON body of a response yields: the `orders` array, or
    * the message of the exception thrown while reading it. */
  datatype Body = Orders(orders: seq<WireOrder>) | Unreadable(message: string)

  /** One request: either a response with its HTTP status and body, or the
    * message of the exception `fetch` rejected with. */
  datatype Attempt = Response(status: int, body: Body) | Rejected(message: string)

  /** How the order fetch ends: the orders, the message of the error it
    * throws, or `undefined` when the loop body never ran. */
  datatype FetchResult = Fetched(orders: seq<FetchedOrder>) | Thrown(message: string) | Undefined

  /** What a single attempt inside the retry loop produces. */
  datatype AttemptResult = Succeeded(orders: seq<FetchedOrder>) | Failed(message: string)

  /** `{id: order.id.toString(), orderNumber: order.name, orderDate: new Date(order.created_at)}` */
  function ToFetchedOrder(w: WireOrder): FetchedOrder {
    FetchedOrder(DecimalString(w.id), w.name, w.createdAt)
  }

  /** `data.orders.map(...)`: one record per wire order, in the same order. */
  function MapOrders(ws: seq<WireOrder>): (os: seq<FetchedOrder>)
    ensures |os| == |ws|
    ensures forall i :: 0 <= i < |ws| ==> os[i] == ToFetchedOrder(ws[i])
  {
    seq(|ws|, i requires 0 <= i < |ws| => ToFetchedOrder(ws[i]))
  }

  predicate DistinctWireIds(ws: seq<WireOrder>) {
    forall i, j :: 0 <= i < j < |ws| ==> ws[i].id != ws[j].id
  }

  predicate DistinctFetchedIds(os: seq<FetchedOrder>) {
    forall i, j :: 0 <= i < j < |os| ==> os[i].id != os[j].id
  }

  /** The id text of every mapped order reads back as its wire id, so orders
    * with different wire ids keep different ids. */
  lemma MapOrdersKeepsIds(ws: seq<WireOrder>)
    ensures forall i :: 0 <= i < |ws| ==> ParseDecimalOk(MapOrders(ws)[i].id, ws[i].id)
    ensures DistinctWireIds(ws) ==> DistinctFetchedIds(MapOrders(ws))
  {
    var os := MapOrders(ws);
    forall i | 0 <= i < |ws|
      ensures ParseDecimalOk(os[i].id, ws[i].id)
    {
      DecimalRoundTrip(ws[i].id);
    }
    if DistinctWireIds(ws) {
      forall i, j | 0 <= i < j < |os|
        ensures os[i].id != os[j].id
      {
        if os[i].id == os[j].id {
          DecimalStringInjective(ws[i].id, ws[j].id);
        }
      }
    }
  }

  /** `s` is well-formed decimal text whose value is `n`. */
  predicate ParseDecimalOk(s: string, n: int) {
    && |s| > 0
    && (s[0] == '-' ==> AllDigits(s[1..]))
    && (s[0] != '-' ==> AllDigits(s))
    && ParseDecimal(s) == n
  }

  /** One pass of the loop body: a rejected fetch, a non-2xx status or an
    * unreadable body fails with the message the source throws; otherwise the
    * orders are mapped. */
  function RunAttempt(a: Attempt): (r: AttemptResult)
    ensures r.Succeeded? <==> a.Response? && 200 <= a.status <= 299 && a.body.Orders?
    ensures r.Succeeded? ==> r.orders == MapOrders(a.body.orders)
    ensures a.Rejected? ==> r == Failed(a.message)
    ensures a.Response? && !(200 <= a.status <= 299) ==> r == Failed("HTTP error " + DecimalString(a.status))
    ensures a.Response? && 200 <= a.status <= 299 && a.body.Unreadable? ==> r == Failed(a.body.message)
  {
    match a
    case Rejected(m) => Failed(m)
    case Response(status, body) =>
      if !(200 <= status <= 299) then Failed("HTTP error " + DecimalString(status))
      else
        match body
        case Unreadable(m) => Failed(m)
        case Orders(ws) => Succeeded(MapOrders(ws))
  }

  /** `fetchOrders(maxAttempts)` with the credentials read from the store and
    * the network given as `network`. Returns how the call ends, how many
    * requests it made and how many one-second waits it slept. */
  method FetchOrders(shopName: string, accessToken: string, maxAttempts: int, network: nat -> Attempt)
    returns (result: FetchResult, made: nat, waits: nat)
    ensures shopName == "" || accessToken == "" ==>
      result == Thrown(MissingCredentials) && made == 0 && waits == 0
    ensures shopName != "" && accessToken != "" ==>
      && made <= (if maxAttempts < 0 then 0 else maxAttempts)
      && (forall k :: 0 <= k < made - 1 ==> RunAttempt(network(k)).Failed?)
      && (result.Fetched? ==> made >= 1 && RunAttempt(network(made - 1)) == Succeeded(result.orders))
      && (result.Thrown? ==> made >= 1 && made == maxAttempts && RunAttempt(network(made - 1)) == Failed(result.message))
      && (result.Undefined? <==> maxAttempts <= 0)
      && waits == (if made == 0 then 0 else made - 1)
  {
    if shopName == "" || accessToken == "" {
      return Thrown(MissingCredentials), 0, 0;
    }
    var attempts: nat := 0;
    waits := 0;
    while attempts < maxAttempts
      invariant attempts == 0 || attempts < maxAttempts
      invariant forall k :: 0 <= k < attempts ==> RunAttempt(network(k)).Failed?
      invariant waits == attempts
      decreases maxAttempts - attempts
    {
      var outcome := RunAttempt(network(attempts));
      if outcome.Succeeded? {
        return Fetched(outcome.orders), attempts + 1, waits;
      }
      attempts := attempts + 1;
      if attempts >= maxAttempts {
        return Thrown(outcome.message), attempts, waits;
      }
      waits := waits + 1;
    }
    return Undefined, 0, 0;
  }

  /** The retry scenario: the endpoint answers HTTP 500 every time, so three
    * requests are made, two one-second waits are slept and the error of the
    * last request is thrown. */
  method AllAttemptsFailExample() returns (result: FetchResult, made: nat, waits: nat)
    ensures result == Thrown("HTTP error 500") && made == 3 && waits == 2
  {
    var serverError := (k: nat) => Response(500, Orders([]));
    result, made, waits := FetchOrders("shop.myshopify.com", "token", 3, serverError);
    assert DecimalString(500) == "500" by {
      assert Digits(500) == Digits(50) + [DigitChar(0)];
      assert Digits(50) == Digits(5) + [DigitChar(0)];
    }
  }
}
