/**
 * The string forms the client puts on the wire: Ruby's decimal rendering of
 * integers inside string interpolation, and URLs whose query string is a list
 * of `key=value` pairs joined by `&`.  Each builder is paired with a parser and
 * a round-trip lemma, so that what a URL carries can be read back from it.
 */
module Text {
  import opened Wrappers

  predicate IsDigit(c: char) { '0' <= c <= '9' }

  predicate AllDigits(s: string) { forall i :: 0 <= i < |s| ==> IsDigit(s[i]) }

  /** The character of the decimal digit `d`. */
  function DigitChar(d: nat): (c: char)
    requires d < 10
    ensures IsDigit(c) && (c as int) - ('0' as int) == d
  {
    (('0' as int) + d) as char
  }

  /** Decimal rendering of a natural number, most significant digit first, no leading zeros. */
  function NatToDecimal(n: nat): (s: string)
    ensures |s| > 0 && AllDigits(s)
    ensures |s| > 1 ==> s[0] != '0'
    decreases n
  {
    if n < 10 then [DigitChar(n)] else NatToDecimal(n / 10) + [DigitChar(n % 10)]
  }

  /** Ruby's `Integer#to_s`: a `-` before the digits of a negative number. */
  function IntToDecimal(i: int): (s: string)
    ensures |s| > 0
    ensures s[0] == '-' <==> i < 0
    ensures forall k :: 0 <= k < |s| ==> s[k] == '-' || IsDigit(s[k])
  {
    if i < 0 then "-" + NatToDecimal(-i) else NatToDecimal(i)
  }

  /** The value of a string of decimal digits (the empty string reads as 0). */
  function ParseNat(s: string): nat
    requires AllDigits(s)
  {
    if s == [] then 0 else ParseNat(s[..|s| - 1]) * 10 + ((s[|s| - 1] as int) - ('0' as int))
  }

  /** Reads back an optionally negative decimal integer; `None` for anything else. */
  function ParseInt(s: string): Option<int>
  {
    if |s| > 1 && s[0] == '-' && AllDigits(s[1..]) then var n: int := ParseNat(s[1..]); Some(-n)
    else if |s| > 0 && AllDigits(s) then Some(ParseNat(s))
    else None
  }

  lemma {:induction false} NatRoundTrip(n: nat)
    ensures ParseNat(NatToDecimal(n)) == n
    decreases n
  {
    if n >= 10 {
      var s := NatToDecimal(n);
      assert s[..|s| - 1] == NatToDecimal(n / 10);
      NatRoundTrip(n / 10);
    }
  }

  /** Every integer placed into a URL can be read back exactly. */
  lemma IntRoundTrip(i: int)
    ensures ParseInt(IntToDecimal(i)) == Some(i)
  {
    if i < 0 {
      var s := IntToDecimal(i);
      assert s[1..] == NatToDecimal(-i);
      NatRoundTrip(-i);
    } else {
      NatRoundTrip(i);
    }
  }

  /** Splits `s` at every occurrence of `sep`; always yields at least one part. */
  function Split(s: string, sep: char): (parts: seq<string>)
    ensures |parts| >= 1
  {
    if s == [] then [""]
    else if s[0] == sep then [""] + Split(s[1..], sep)
    else var rest := Split(s[1..], sep); [[s[0]] + rest[0]] + rest[1..]
  }

  /** Joins the parts with `sep` between consecutive parts. */
  function Join(parts: seq<string>, sep: char): string
  {
    if |parts| == 0 then ""
    else if |parts| == 1 then parts[0]
    else parts[0] + [sep] + Join(parts[1..], sep)
  }

  /** Splits `s` at its first occurrence of `sep`; `None` when there is none. */
  function SplitAtFirst(s: string, sep: char): Option<(string, string)>
  {
    if s == [] then None
    else if s[0] == sep then Some(("", s[1..]))
    else match SplitAtFirst(s[1..], sep)
      case None => None
      case Some(p) => Some(([s[0]] + p.0, p.1))
  }

  lemma {:induction false} SplitAtFirstOf(a: string, b: string, sep: char)
    requires sep !in a
    ensures SplitAtFirst(a + [sep] + b, sep) == Some((a, b))
  {
    if a != [] {
      assert (a + [sep] + b)[1..] == a[1..] + [sep] + b;
      SplitAtFirstOf(a[1..], b, sep);
      assert [a[0]] + a[1..] == a;
    }
  }

  lemma {:induction false} SplitWithoutSep(p: string, sep: char)
    requires sep !in p
    ensures Split(p, sep) == [p]
  {
    if p != [] {
      SplitWithoutSep(p[1..], sep);
      assert [p[0]] + p[1..] == p;
    }
  }

  lemma {:induction false} SplitAfterPart(p: string, rest: string, sep: char)
    requires sep !in p
    ensures Split(p + [sep] + rest, sep) == [p] + Split(rest, sep)
  {
    var s := p + [sep] + rest;
    if p == [] {
      assert s[1..] == rest;
    } else {
      assert s[1..] == p[1..] + [sep] + rest;
      SplitAfterPart(p[1..], rest, sep);
      assert [p[0]] + p[1..] == p;
    }
  }

  /** Splitting undoes joining when no part contains the separator. */
  lemma {:induction false} SplitJoin(parts: seq<string>, sep: char)
    requires |parts| >= 1
    requires forall i :: 0 <= i < |parts| ==> sep !in parts[i]
    ensures Split(Join(parts, sep), sep) == parts
  {
    if |parts| == 1 {
      SplitWithoutSep(parts[0], sep);
    } else {
      SplitAfterPart(parts[0], Join(parts[1..], sep), sep);
      SplitJoin(parts[1..], sep);
    }
  }

  lemma {:induction false} JoinAvoids(parts: seq<string>, sep: char, c: char)
    requires c != sep
    requires forall i :: 0 <= i < |parts| ==> c !in parts[i]
    ensures c !in Join(parts, sep)
  {
    if |parts| > 1 {
      JoinAvoids(parts[1..], sep, c);
    }
  }

  /** A query value or key that needs no escaping to survive `&`/`=`/`?` splitting. */
  predicate Plain(s: string) { '&' !in s && '=' !in s && '?' !in s }

  predicate PlainPairs(ps: seq<(string, string)>)
  {
    forall i :: 0 <= i < |ps| ==> Plain(ps[i].0) && Plain(ps[i].1)
  }

  function PairText(p: (string, string)): string { p.0 + "=" + p.1 }

  function PairTexts(ps: seq<(string, string)>): (texts: seq<string>)
    ensures |texts| == |ps|
    ensures forall i :: 0 <= i < |ps| ==> texts[i] == PairText(ps[i])
  {
    if ps == [] then [] else [PairText(ps[0])] + PairTexts(ps[1..])
  }

  /** `k1=v1&k2=v2&...`, in the order given, with nothing escaped. */
  function QueryString(ps: seq<(string, string)>): string
  {
    Join(PairTexts(ps), '&')
  }

  /** A URL made of a path and a query string. */
  function Url(path: string, ps: seq<(string, string)>): string
  {
    path + "?" + QueryString(ps)
  }

  function ParsePair(s: string): Option<(string, string)>
  {
    var kv := Split(s, '=');
    if |kv| == 2 then Some((kv[0], kv[1])) else None
  }

  function ParsePairs(parts: seq<string>): Option<seq<(string, string)>>
  {
    if parts == [] then Some([])
    else match (ParsePair(parts[0]), ParsePairs(parts[1..]))
      case (Some(p), Some(ps)) => Some([p] + ps)
      case _ => None
  }

  /** Reads a URL back into its path and its list of query pairs. */
  function ParseUrl(url: string): Option<(string, seq<(string, string)>)>
  {
    var halves := Split(url, '?');
    if |halves| != 2 then None
    else match ParsePairs(Split(halves[1], '&'))
      case None => None
      case Some(ps) => Some((halves[0], ps))
  }

  /** The value of the first pair with key `k`. */
  function Lookup(ps: seq<(string, string)>, k: string): Option<string>
  {
    if ps == [] then None else if ps[0].0 == k then Some(ps[0].1) else Lookup(ps[1..], k)
  }

  lemma {:induction false} ParsePairsOfTexts(ps: seq<(string, string)>)
    requires PlainPairs(ps)
    ensures ParsePairs(PairTexts(ps)) == Some(ps)
  {
    var texts := PairTexts(ps);
    if ps != [] {
      var (k, v) := ps[0];
      SplitAfterPart(k, v, '=');
      SplitWithoutSep(v, '=');
      assert texts[0] == k + ['='] + v;
      assert ParsePair(texts[0]) == Some((k, v));
      assert texts[1..] == PairTexts(ps[1..]);
      ParsePairsOfTexts(ps[1..]);
      assert [(k, v)] + ps[1..] == ps;
    }
  }

  /** The query pairs put into a URL are exactly those read back from it. */
  lemma UrlRoundTrip(path: string, ps: seq<(string, string)>)
    requires '?' !in path
    requires |ps| >= 1 && PlainPairs(ps)
    ensures ParseUrl(Url(path, ps)) == Some((path, ps))
  {
    var texts := PairTexts(ps);
    forall i | 0 <= i < |texts| ensures '&' !in texts[i] && '?' !in texts[i] {
      assert texts[i] == ps[i].0 + "=" + ps[i].1;
    }
    var q := QueryString(ps);
    JoinAvoids(texts, '&', '?');
    assert Url(path, ps) == path + ['?'] + q;
    SplitAfterPart(path, q, '?');
    SplitWithoutSep(q, '?');
    SplitJoin(texts, '&');
    ParsePairsOfTexts(ps);
  }
}
