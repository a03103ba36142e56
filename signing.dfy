/** `JiemengAPIClient._sign_request`: the vendor variant of the Signature V4
    scheme that authenticates every call to visual.volcengineapi.com.

    The UTC instant that the server reads from its clock is an input here; the
    hash primitives come from `Bytes.Crypto`. */
module Signing {
  import opened Text
  import opened Bytes

  const Host: string := "visual.volcengineapi.com"
  const Endpoint: string := "https://visual.volcengineapi.com"
  const Region: string := "cn-north-1"
  const Service: string := "cv"
  const Algorithm: string := "HMAC-SHA256"
  const SignedHeaderNames: string := "content-type;host;x-content-sha256;x-date"
  const ContentType: string := "application/json"

  /** A UTC instant to the second, as `datetime.utcnow()` gives it. Years
      before 1000 are left out: `%Y` would not print four digits for them. */
  datatype Instant = Instant(year: nat, month: nat, day: nat, hour: nat, minute: nat, second: nat)

  type UtcInstant = t: Instant |
    && 1000 <= t.year <= 9999 && 1 <= t.month <= 12 && 1 <= t.day <= 31
    && t.hour < 24 && t.minute < 60 && t.second < 60
    witness Instant(1970, 1, 1, 0, 0, 0)

  /** `t.strftime('%Y%m%d')`. */
  function DateStamp(t: UtcInstant): (s: string)
    ensures |s| == 8 && forall i :: 0 <= i < |s| ==> IsDigit(s[i])
    ensures DigitsValue(s[..4]) == t.year && DigitsValue(s[4..6]) == t.month && DigitsValue(s[6..]) == t.day
  {
    var s := FixedDigits(t.year, 4) + FixedDigits(t.month, 2) + FixedDigits(t.day, 2);
    assert s[..4] == FixedDigits(t.year, 4) && s[4..6] == FixedDigits(t.month, 2) && s[6..] == FixedDigits(t.day, 2);
    assert forall i :: 0 <= i < 4 ==> s[i] == s[..4][i];
    assert forall i :: 4 <= i < 6 ==> s[i] == s[4..6][i - 4];
    assert forall i :: 6 <= i < 8 ==> s[i] == s[6..][i - 6];
    assert Pow10(4) == 10000 && Pow10(2) == 100;
    FixedDigitsRoundTrip(t.year, 4);
    FixedDigitsRoundTrip(t.month, 2);
    FixedDigitsRoundTrip(t.day, 2);
    s
  }

  /** `t.strftime('%Y%m%dT%H%M%SZ')`, the `X-Date` value. */
  function XDate(t: UtcInstant): (s: string)
    ensures |s| == 16
    ensures s[..8] == DateStamp(t) && s[8] == 'T' && s[15] == 'Z'
    ensures forall i :: 9 <= i < 15 ==> IsDigit(s[i])
    ensures DigitsValue(s[9..11]) == t.hour && DigitsValue(s[11..13]) == t.minute && DigitsValue(s[13..15]) == t.second
  {
    var s := DateStamp(t) + "T" + FixedDigits(t.hour, 2) + FixedDigits(t.minute, 2) + FixedDigits(t.second, 2) + "Z";
    assert s[9..11] == FixedDigits(t.hour, 2) && s[11..13] == FixedDigits(t.minute, 2)
        && s[13..15] == FixedDigits(t.second, 2);
    assert forall i :: 9 <= i < 11 ==> s[i] == s[9..11][i - 9];
    assert forall i :: 11 <= i < 13 ==> s[i] == s[11..13][i - 11];
    assert forall i :: 13 <= i < 15 ==> s[i] == s[13..15][i - 13];
    assert Pow10(2) == 100;
    FixedDigitsRoundTrip(t.hour, 2);
    FixedDigitsRoundTrip(t.minute, 2);
    FixedDigitsRoundTrip(t.second, 2);
    s
  }

  /** The query parameters, as the items of the dict the server passes in;
      a dict never holds a key twice. */
  type Params = seq<(string, string)>

  predicate DistinctKeys(ps: Params)
  {
    forall i, j :: 0 <= i < j < |ps| ==> ps[i].0 != ps[j].0
  }

  /** Strictly increasing keys, which `sorted(params.items())` produces. */
  predicate SortedByKey(ps: Params)
  {
    forall i, j :: 0 <= i < j < |ps| ==> LexLess(ps[i].0, ps[j].0)
  }

  function Insert(p: (string, string), s: Params): (r: Params)
  {
    if |s| == 0 then [p]
    else if LexLess(p.0, s[0].0) then [p] + s
    else [s[0]] + Insert(p, s[1..])
  }

  /** A list holding the pairs of `s` and `p` has keys above any bound
      that all of them are above. */
  lemma KeysAbove(x: string, t: Params, s: Params, p: (string, string))
    requires multiset(t) == multiset(s) + multiset{p}
    requires LexLess(x, p.0) && forall k :: 0 <= k < |s| ==> LexLess(x, s[k].0)
    ensures forall j :: 0 <= j < |t| ==> LexLess(x, t[j].0)
  {
    forall j | 0 <= j < |t| ensures LexLess(x, t[j].0) {
      assert t[j] in multiset(t);
      if t[j] != p {
        assert t[j] in multiset(s);
        var k :| 0 <= k < |s| && s[k] == t[j];
      }
    }
  }

  lemma {:induction false} InsertSorted(p: (string, string), s: Params)
    requires SortedByKey(s)
    requires forall i :: 0 <= i < |s| ==> s[i].0 != p.0
    ensures SortedByKey(Insert(p, s))
    ensures multiset(Insert(p, s)) == multiset(s) + multiset{p}
  {
    if |s| == 0 {
    } else if LexLess(p.0, s[0].0) {
      var r := [p] + s;
      forall i, j | 0 <= i < j < |r| ensures LexLess(r[i].0, r[j].0) {
        if i == 0 && j > 1 {
          LexLessTransitive(p.0, s[0].0, s[j - 1].0);
        }
      }
    } else {
      LexLessTotal(p.0, s[0].0);
      InsertSorted(p, s[1..]);
      var t := Insert(p, s[1..]);
      var r := [s[0]] + t;
      assert s == [s[0]] + s[1..];
      KeysAbove(s[0].0, t, s[1..], p);
      forall i, j | 0 <= i < j < |r| ensures LexLess(r[i].0, r[j].0) {
        if i > 0 {
          assert r[i] == t[i - 1] && r[j] == t[j - 1];
        }
      }
    }
  }

  /** `sorted(params.items())`. */
  function SortByKey(ps: Params): (r: Params)
    requires DistinctKeys(ps)
    ensures SortedByKey(r)
    ensures multiset(r) == multiset(ps)
  {
    if |ps| == 0 then []
    else
      var rest := SortByKey(ps[1..]);
      HeadKeyFresh(ps, rest);
      InsertSorted(ps[0], rest);
      assert ps == [ps[0]] + ps[1..];
      Insert(ps[0], rest)
  }

  /** A rearrangement of the tail of a list with distinct keys never holds
      the head's key. */
  lemma HeadKeyFresh(ps: Params, rest: Params)
    requires DistinctKeys(ps) && |ps| > 0
    requires multiset(rest) == multiset(ps[1..])
    ensures forall i :: 0 <= i < |rest| ==> rest[i].0 != ps[0].0
  {
    forall i | 0 <= i < |rest| ensures rest[i].0 != ps[0].0 {
      assert rest[i] in multiset(ps[1..]);
      var k :| 0 <= k < |ps[1..]| && ps[1..][k] == rest[i];
      assert ps[k + 1] == rest[i];
    }
  }

  /** Two key-sorted lists holding the same pairs are the same list. */
  lemma {:induction false} SortedUnique(a: Params, b: Params)
    requires SortedByKey(a) && SortedByKey(b)
    requires multiset(a) == multiset(b)
    ensures a == b
  {
    if |a| == 0 {
      assert |multiset(b)| == 0;
    } else {
      assert |b| == |multiset(b)| == |multiset(a)| == |a|;
      if a[0] != b[0] {
        assert a[0] in multiset(b);
        var j :| 0 <= j < |b| && b[j] == a[0];
        assert b[0] in multiset(a);
        var i :| 0 <= i < |a| && a[i] == b[0];
        assert LexLess(b[0].0, a[0].0) && LexLess(a[0].0, b[0].0);
        LexLessTransitive(a[0].0, b[0].0, a[0].0);
        LexLessIrreflexive(a[0].0);
      }
      assert a == [a[0]] + a[1..] && b == [b[0]] + b[1..];
      assert multiset(a) == multiset{a[0]} + multiset(a[1..]);
      assert multiset(b) == multiset{b[0]} + multiset(b[1..]);
      assert a[0] == b[0];
      assert multiset(a[1..]) == multiset(a) - multiset{a[0]};
      assert multiset(a[1..]) == multiset(b[1..]);
      SortedUnique(a[1..], b[1..]);
    }
  }

  /** The `k=v` items of the query, in the order given. */
  function Render(ps: Params): (r: seq<string>)
    ensures |r| == |ps|
  {
    seq(|ps|, i requires 0 <= i < |ps| => ps[i].0 + "=" + ps[i].1)
  }

  /** `'&'.join(f"{k}={v}" for k, v in sorted(params.items()))`: no
      percent-encoding. */
  function CanonicalQuery(ps: Params): string
    requires DistinctKeys(ps)
  {
    Join(Render(SortByKey(ps)), "&")
  }

  /** The canonical query does not depend on the order in which the
      parameters were inserted. */
  lemma CanonicalQueryOrderFree(p: Params, q: Params)
    requires DistinctKeys(p) && DistinctKeys(q)
    requires multiset(p) == multiset(q)
    ensures CanonicalQuery(p) == CanonicalQuery(q)
  {
    SortedUnique(SortByKey(p), SortByKey(q));
  }

  /** `{b: 2, a: 1}` canonicalises to `a=1&b=2`. */
  lemma CanonicalQueryExample()
    ensures CanonicalQuery([("b", "2"), ("a", "1")]) == "a=1&b=2"
  {
    assert LexLess("a", "b");
    CanonicalQueryOfTwo("b", "2", "a", "1");
  }

  /** Two parameters come out with the smaller key first, whatever order
      they were given in. */
  lemma CanonicalQueryOfTwo(k1: string, v1: string, k2: string, v2: string)
    requires LexLess(k2, k1)
    ensures DistinctKeys([(k1, v1), (k2, v2)])
    ensures CanonicalQuery([(k1, v1), (k2, v2)]) == k2 + "=" + v2 + "&" + (k1 + "=" + v1)
  {
    LexLessIrreflexive(k1);
    var ps := [(k1, v1), (k2, v2)];
    var sorted := [(k2, v2), (k1, v1)];
    assert multiset(ps) == multiset(sorted);
    SortedUnique(SortByKey(ps), sorted);
    var items := Render(sorted);
    assert Join(items, "&") == items[0] + "&" + items[1];
  }

  /** When no key or value holds `&` or `=`, the canonical query splits back
      into the sorted parameters: one `k=v` item per parameter, each splitting
      at `=` into its key and value. */
  lemma CanonicalQueryRoundTrip(ps: Params)
    requires DistinctKeys(ps) && |ps| >= 1
    requires forall i :: 0 <= i < |ps| ==> '&' !in ps[i].0 && '&' !in ps[i].1 && '=' !in ps[i].0 && '=' !in ps[i].1
    ensures var items := Split(CanonicalQuery(ps), '&');
      && items == Render(SortByKey(ps))
      && forall i :: 0 <= i < |items| ==> Split(items[i], '=') == [SortByKey(ps)[i].0, SortByKey(ps)[i].1]
  {
    var s := SortByKey(ps);
    var items := Render(s);
    forall i | 0 <= i < |s|
      ensures '&' !in s[i].0 && '&' !in s[i].1 && '=' !in s[i].0 && '=' !in s[i].1
    {
      assert s[i] in multiset(ps);
    }
    forall i | 0 <= i < |items| ensures '&' !in items[i] {
      assert items[i] == s[i].0 + "=" + s[i].1;
    }
    SplitJoin(items, '&');
    forall i | 0 <= i < |items| ensures Split(items[i], '=') == [s[i].0, s[i].1] {
      assert items[i] == Join([s[i].0, s[i].1], "=");
      SplitJoin([s[i].0, s[i].1], '=');
    }
  }

  /** The fixed canonical header block, one `name:value` line per header. */
  function CanonicalHeaders(payloadHash: string, xDate: string): (r: string)
    ensures "content-type:" <= r
    ensures |r| > |xDate| && r[|r| - |xDate| - 1..] == xDate + "\n"
  {
    "content-type:" + ContentType + "\n"
      + "host:" + Host + "\n"
      + "x-content-sha256:" + payloadHash + "\n"
      + "x-date:" + xDate + "\n"
  }

  /** Method, path, query, header block, signed-header list and payload
      hash, one per line. */
  function CanonicalRequest(query: string, payloadHash: string, xDate: string): (r: string)
    ensures "POST\n/\n" + query + "\n" <= r
    ensures |r| >= |payloadHash| && r[|r| - |payloadHash|..] == payloadHash
  {
    "POST" + "\n" + "/" + "\n" + query + "\n" + CanonicalHeaders(payloadHash, xDate) + "\n"
      + SignedHeaderNames + "\n" + payloadHash
  }

  lemma JoinStep(l: seq<string>, k: nat, sep: string)
    requires k + 1 < |l|
    ensures Join(l[k..], sep) == l[k] + sep + Join(l[k + 1..], sep)
  {
    assert l[k..][1..] == l[k + 1..];
  }

  lemma JoinTenLines(l: seq<string>)
    requires |l| == 10
    ensures Join(l, "\n") == l[0] + "\n" + (l[1] + "\n" + (l[2] + "\n" + (l[3] + "\n" + (l[4] + "\n"
      + (l[5] + "\n" + (l[6] + "\n" + (l[7] + "\n" + (l[8] + "\n" + l[9]))))))))
  {
    assert l[9..] == [l[9]];
    JoinStep(l, 8, "\n");
    JoinStep(l, 7, "\n");
    JoinStep(l, 6, "\n");
    JoinStep(l, 5, "\n");
    JoinStep(l, 4, "\n");
    JoinStep(l, 3, "\n");
    JoinStep(l, 2, "\n");
    JoinStep(l, 1, "\n");
    JoinStep(l, 0, "\n");
    assert l[0..] == l;
  }

  lemma CanonicalRequestRegrouped(query: string, ph: string, xd: string)
    ensures CanonicalRequest(query, ph, xd) == "POST" + "\n" + ("/" + "\n" + (query + "\n"
      + (("content-type:" + ContentType) + "\n" + (("host:" + Host) + "\n"
      + (("x-content-sha256:" + ph) + "\n" + (("x-date:" + xd) + "\n"
      + ("" + "\n" + (SignedHeaderNames + "\n" + ph))))))))
  {
    RegroupLines("POST", "/", query, "content-type:", ContentType, "host:", Host,
                 "x-content-sha256:", ph, "x-date:", xd, SignedHeaderNames, ph, "\n");
  }

  /** Concatenation regrouped to the right, piece by piece. */
  lemma RegroupLines(m: string, u: string, q: string, a1: string, a2: string, b1: string, b2: string,
                     c1: string, c2: string, d1: string, d2: string, sh: string, ph: string, nl: string)
    ensures m + nl + u + nl + q + nl + (a1 + a2 + nl + b1 + b2 + nl + c1 + c2 + nl + d1 + d2 + nl) + nl + sh + nl + ph
         == m + nl + (u + nl + (q + nl + ((a1 + a2) + nl + ((b1 + b2) + nl + ((c1 + c2) + nl + ((d1 + d2) + nl
            + ("" + nl + (sh + nl + ph))))))))
  {
  }

  lemma FixedLinesWithoutNewline()
    ensures '\n' !in SignedHeaderNames
    ensures '\n' !in "content-type:" + ContentType
    ensures '\n' !in "host:" + Host
  {
    NewlineFree(SignedHeaderNames);
    NewlineFree(ContentType);
    NewlineFree(Host);
    NewlineFree("content-type:");
    NewlineFree("host:");
    NewlineFree("x-content-sha256:");
    NewlineFree("x-date:");
    ConcatWithout("content-type:", ContentType, '\n');
    ConcatWithout("host:", Host, '\n');
  }

  /** A string none of whose characters is a line break. */
  lemma NewlineFree(t: string)
    requires forall k :: 0 <= k < |t| ==> t[k] != '\n'
    ensures '\n' !in t
  {
  }

  lemma ConcatWithout(a: string, b: string, c: char)
    requires c !in a && c !in b
    ensures c !in a + b
  {
  }

  /** The lines of the canonical request, read back at its line breaks. The
      header block ends in a line break of its own, so an empty line separates
      it from the signed-header list. */
  function CanonicalRequestLines(query: string, payloadHash: string, xDate: string): seq<string>
  {
    ["POST", "/", query, "content-type:" + ContentType, "host:" + Host,
     "x-content-sha256:" + payloadHash, "x-date:" + xDate, "", SignedHeaderNames, payloadHash]
  }

  /** Splitting the canonical request at its line breaks gives exactly the ten
      lines method, path, query, the four headers, the empty line, the
      signed-header list and the payload hash, provided the query holds no
      line break (the hash and the date never do). */
  lemma CanonicalRequestSplits(query: string, payloadHash: string, xDate: string)
    requires '\n' !in query && '\n' !in payloadHash && '\n' !in xDate
    ensures Split(CanonicalRequest(query, payloadHash, xDate), '\n') == CanonicalRequestLines(query, payloadHash, xDate)
  {
    var lines := CanonicalRequestLines(query, payloadHash, xDate);
    JoinTenLines(lines);
    CanonicalRequestRegrouped(query, payloadHash, xDate);
    FixedLinesWithoutNewline();
    forall i | 0 <= i < |lines| ensures '\n' !in lines[i] {
      if i == 5 || i == 6 {
        var pre := if i == 5 then "x-content-sha256:" else "x-date:";
        var rest := if i == 5 then payloadHash else xDate;
        assert lines[i] == pre + rest;
        assert '\n' !in pre;
      }
    }
    SplitJoin(lines, '\n');
  }

  /** The credential scope: the date stamp, then region, service and
      `request`. */
  function CredentialScope(dateStamp: string): (r: string)
    ensures dateStamp <= r
    ensures |r| >= |dateStamp| && r[|dateStamp|..] == "/cn-north-1/cv/request"
  {
    dateStamp + "/" + Region + "/" + Service + "/" + "request"
  }

  /** The string to sign: algorithm, X-Date, scope and the hex hash of the
      canonical request, one per line. */
  function StringToSign(cr: Crypto, xDate: string, scope: string, canonicalRequest: string): (r: string)
    ensures Algorithm + "\n" + xDate + "\n" + scope + "\n" <= r
    ensures var h := Sha256Hex(cr, canonicalRequest); |r| >= |h| && r[|r| - |h|..] == h
    ensures |r| == |Algorithm + "\n" + xDate + "\n" + scope + "\n"| + |Sha256Hex(cr, canonicalRequest)|
  {
    Algorithm + "\n" + xDate + "\n" + scope + "\n" + Sha256Hex(cr, canonicalRequest)
  }

  /** `getSignatureKey`: four HMAC steps starting from the secret, keyed in
      turn by the date stamp, the region, the service and `request`. */
  function SigningKey(cr: Crypto, secretKey: string, dateStamp: string): seq<byte>
  {
    var kDate := HmacOf(cr, Utf8(secretKey), dateStamp);
    var kRegion := HmacOf(cr, kDate, Region);
    var kService := HmacOf(cr, kRegion, Service);
    HmacOf(cr, kService, "request")
  }

  /** The `Authorization` header value. */
  function Authorization(accessKey: string, scope: string, signature: string): (r: string)
    ensures "HMAC-SHA256 Credential=" + accessKey + "/" + scope + ", " <= r
    ensures |r| >= |signature| + 10 && r[|r| - |signature| - 10..] == "Signature=" + signature
  {
    Algorithm + " " + "Credential=" + accessKey + "/" + scope + ", " + "SignedHeaders="
      + SignedHeaderNames + ", " + "Signature=" + signature
  }

  /** The four headers `_sign_request` returns. */
  datatype SignedHeaders = SignedHeaders(
    xDate: string,            // X-Date
    authorization: string,    // Authorization
    xContentSha256: string,   // X-Content-Sha256
    contentType: string)      // Content-Type

  /** The pair `(headers, request_url)` that `_sign_request` returns. */
  datatype Signed = Signed(headers: SignedHeaders, url: string)

  /** `_sign_request(query_params, body)` at instant `t`. Only a missing key
      (Python `None`) stops it; an empty key is signed with. */
  function SignRequest(cr: Crypto, accessKey: Option<string>, secretKey: Option<string>,
                       t: UtcInstant, params: Params, body: string): (r: Option<Signed>)
    requires DistinctKeys(params)
    ensures r.None? <==> accessKey.None? || secretKey.None?
    ensures r.Some? ==> r.value.url == Endpoint + "?" + CanonicalQuery(params)
    ensures r.Some? ==> r.value.headers.contentType == ContentType
    ensures r.Some? ==> r.value.headers.xContentSha256 == Sha256Hex(cr, body)
    ensures r.Some? ==> r.value.headers.xDate == XDate(t)
  {
    if accessKey.None? || secretKey.None? then None
    else
      var xDate := XDate(t);
      var dateStamp := DateStamp(t);
      var query := CanonicalQuery(params);
      var payloadHash := Sha256Hex(cr, body);
      var canonicalRequest := CanonicalRequest(query, payloadHash, xDate);
      var scope := CredentialScope(dateStamp);
      var stringToSign := StringToSign(cr, xDate, scope, canonicalRequest);
      var signingKey := SigningKey(cr, secretKey.value, dateStamp);
      var signature := Hex(cr.hmac(signingKey, Utf8(stringToSign)));
      var headers := SignedHeaders(xDate, Authorization(accessKey.value, scope, signature),
                                   payloadHash, ContentType);
      Some(Signed(headers, Endpoint + "?" + query))
  }

  /** The X-Date value is eight date digits, `T`, six time digits and `Z`,
      and its first eight characters are the date stamp. */
  lemma XDateLayout(t: UtcInstant)
    ensures var s := XDate(t);
      && s[..8] == DateStamp(t) && s[8] == 'T' && s[15] == 'Z'
      && (forall i :: 0 <= i < 8 ==> IsDigit(s[i]))
      && (forall i :: 9 <= i < 15 ==> IsDigit(s[i]))
  {
    var s := XDate(t);
    var d := DateStamp(t);
    assert forall i :: 0 <= i < 4 ==> d[i] == FixedDigits(t.year, 4)[i];
    assert forall i :: 4 <= i < 6 ==> d[i] == FixedDigits(t.month, 2)[i - 4];
    assert forall i :: 6 <= i < 8 ==> d[i] == FixedDigits(t.day, 2)[i - 6];
    assert forall i :: 9 <= i < 11 ==> s[i] == FixedDigits(t.hour, 2)[i - 9];
    assert forall i :: 11 <= i < 13 ==> s[i] == FixedDigits(t.minute, 2)[i - 11];
    assert forall i :: 13 <= i < 15 ==> s[i] == FixedDigits(t.second, 2)[i - 13];
  }

  lemma FieldsDetermine(n1: nat, n2: nat, k: nat)
    requires n1 < Pow10(k) && n2 < Pow10(k)
    requires FixedDigits(n1, k) == FixedDigits(n2, k)
    ensures n1 == n2
  {
    FixedDigitsRoundTrip(n1, k);
    FixedDigitsRoundTrip(n2, k);
  }

  /** Two instants have the same date stamp exactly when they fall on the
      same UTC day, so the derived signing key changes with the day and only
      with the day. */
  lemma DateStampIdentifiesDay(t1: UtcInstant, t2: UtcInstant)
    ensures DateStamp(t1) == DateStamp(t2) <==>
      (t1.year == t2.year && t1.month == t2.month && t1.day == t2.day)
  {
    if DateStamp(t1) == DateStamp(t2) {
      var a, b := DateStamp(t1), DateStamp(t2);
      assert a[..4] == FixedDigits(t1.year, 4) && b[..4] == FixedDigits(t2.year, 4);
      assert a[4..6] == FixedDigits(t1.month, 2) && b[4..6] == FixedDigits(t2.month, 2);
      assert a[6..] == FixedDigits(t1.day, 2) && b[6..] == FixedDigits(t2.day, 2);
      assert Pow10(2) == 100 && Pow10(4) == 10000;
      FieldsDetermine(t1.year, t2.year, 4);
      FieldsDetermine(t1.month, t2.month, 2);
      FieldsDetermine(t1.day, t2.day, 2);
    }
  }

  /** The signed timestamp names one instant: equal X-Date values come from
      equal instants. */
  lemma XDateIdentifiesInstant(t1: UtcInstant, t2: UtcInstant)
    ensures XDate(t1) == XDate(t2) <==> t1 == t2
  {
    if XDate(t1) == XDate(t2) {
      var a, b := XDate(t1), XDate(t2);
      assert a[..8] == DateStamp(t1) && b[..8] == DateStamp(t2);
      DateStampIdentifiesDay(t1, t2);
      assert a[9..11] == FixedDigits(t1.hour, 2) && b[9..11] == FixedDigits(t2.hour, 2);
      assert a[11..13] == FixedDigits(t1.minute, 2) && b[11..13] == FixedDigits(t2.minute, 2);
      assert a[13..15] == FixedDigits(t1.second, 2) && b[13..15] == FixedDigits(t2.second, 2);
      assert Pow10(2) == 100;
      FieldsDetermine(t1.hour, t2.hour, 2);
      FieldsDetermine(t1.minute, t2.minute, 2);
      FieldsDetermine(t1.second, t2.second, 2);
    }
  }

  /** Requests signed with the same secret on the same UTC day use the same
      signing key, whatever their bodies, queries, access keys or times of
      day. */
  lemma SigningKeyPerDay(cr: Crypto, accessKey1: string, accessKey2: string, secretKey: string,
                         t1: UtcInstant, t2: UtcInstant, params1: Params, params2: Params,
                         body1: string, body2: string)
    requires DistinctKeys(params1) && DistinctKeys(params2)
    requires t1.year == t2.year && t1.month == t2.month && t1.day == t2.day
    ensures var r1 := SignRequest(cr, Some(accessKey1), Some(secretKey), t1, params1, body1);
      var r2 := SignRequest(cr, Some(accessKey2), Some(secretKey), t2, params2, body2);
      && r1.Some? && r2.Some?
      && r1.value.headers.xDate[..8] == r2.value.headers.xDate[..8]
      && SigningKey(cr, secretKey, r1.value.headers.xDate[..8])
         == SigningKey(cr, secretKey, r2.value.headers.xDate[..8])
  {
    XDateLayout(t1);
    XDateLayout(t2);
    DateStampIdentifiesDay(t1, t2);
  }

  lemma AuthorizationLayout(accessKey: string, dateStamp: string, signature: string)
    ensures Authorization(accessKey, CredentialScope(dateStamp), signature) ==
      Algorithm + " " + "Credential=" + accessKey + "/" + dateStamp + "/" + Region + "/" + Service
      + "/" + "request" + ", " + "SignedHeaders=" + SignedHeaderNames + ", " + "Signature=" + signature
  {
  }

  lemma HexWithoutNewline(s: string)
    requires forall i :: 0 <= i < |s| ==> IsHexChar(s[i])
    ensures '\n' !in s
  {
  }

  lemma XDateWithoutNewline(t: UtcInstant)
    ensures '\n' !in XDate(t)
  {
    XDateLayout(t);
  }

  /** The Authorization value is `HMAC-SHA256 Credential=<access key>/<date>/
      cn-north-1/cv/request`, the fixed signed-header list and the hex HMAC of
      the string to sign under the key of that date, where the date is the
      first eight characters of the X-Date header sent beside it. */
  lemma AuthorizationMatchesXDate(cr: Crypto, accessKey: string, secretKey: string,
                                  t: UtcInstant, params: Params, body: string)
    requires DistinctKeys(params)
    ensures var r := SignRequest(cr, Some(accessKey), Some(secretKey), t, params, body);
      && r.Some?
      && var h := r.value.headers;
      && h.xDate[..8] == DateStamp(t)
      && h.authorization ==
           Algorithm + " " + "Credential=" + accessKey + "/" + h.xDate[..8] + "/" + Region + "/" + Service
           + "/" + "request" + ", " + "SignedHeaders=" + SignedHeaderNames + ", " + "Signature="
           + Hex(cr.hmac(SigningKey(cr, secretKey, h.xDate[..8]),
                         Utf8(StringToSign(cr, h.xDate, CredentialScope(h.xDate[..8]),
                                           CanonicalRequest(CanonicalQuery(params), h.xContentSha256, h.xDate)))))
  {
    XDateLayout(t);
    var r := SignRequest(cr, Some(accessKey), Some(secretKey), t, params, body);
    var h := r.value.headers;
    var sts := StringToSign(cr, XDate(t), CredentialScope(DateStamp(t)),
                            CanonicalRequest(CanonicalQuery(params), Sha256Hex(cr, body), XDate(t)));
    var sig := Hex(cr.hmac(SigningKey(cr, secretKey, DateStamp(t)), Utf8(sts)));
    assert h.xDate == XDate(t);
    assert h.authorization == Authorization(accessKey, CredentialScope(DateStamp(t)), sig);
    AuthorizationLayout(accessKey, DateStamp(t), sig);
  }

  /** The canonical request that was hashed into the string to sign has the
      X-Content-Sha256 header as its last line and the X-Date header on its
      `x-date:` line, when no parameter holds a line break. */
  lemma CanonicalRequestMatchesHeaders(cr: Crypto, accessKey: string, secretKey: string,
                                       t: UtcInstant, params: Params, body: string)
    requires DistinctKeys(params)
    requires forall i :: 0 <= i < |params| ==> '\n' !in params[i].0 && '\n' !in params[i].1
    ensures var r := SignRequest(cr, Some(accessKey), Some(secretKey), t, params, body);
      && r.Some?
      && var h := r.value.headers;
      && var lines := Split(CanonicalRequest(CanonicalQuery(params), h.xContentSha256, h.xDate), '\n');
      && |lines| == 10
      && lines[9] == h.xContentSha256
      && lines[6] == "x-date:" + h.xDate
  {
    var r := SignRequest(cr, Some(accessKey), Some(secretKey), t, params, body);
    var h := r.value.headers;
    HexWithoutNewline(h.xContentSha256);
    XDateWithoutNewline(t);
    QueryWithoutNewline(params);
    HashAndDateLines(CanonicalQuery(params), h.xContentSha256, h.xDate);
  }

  lemma HashAndDateLines(query: string, payloadHash: string, xDate: string)
    requires '\n' !in query && '\n' !in payloadHash && '\n' !in xDate
    ensures var lines := Split(CanonicalRequest(query, payloadHash, xDate), '\n');
      |lines| == 10 && lines[9] == payloadHash && lines[6] == "x-date:" + xDate
  {
    CanonicalRequestSplits(query, payloadHash, xDate);
  }

  lemma QueryWithoutNewline(params: Params)
    requires DistinctKeys(params)
    requires forall i :: 0 <= i < |params| ==> '\n' !in params[i].0 && '\n' !in params[i].1
    ensures '\n' !in CanonicalQuery(params)
  {
    var s := SortByKey(params);
    var items := Render(s);
    forall i | 0 <= i < |items| ensures '\n' !in items[i] {
      assert s[i] in multiset(params);
      assert items[i] == s[i].0 + "=" + s[i].1;
    }
    JoinWithout(items, '\n', "&");
  }
}
