/**
 A reader of canonical strings, written from the format alone: a line with the
 verb, a line with the path, then pairs between ampersands, each cut at its first
 equals sign. What it reads from the string that is signed is the request.
 */
module SignedText {
  import opened PeerTable
  import S = HttpSign

  type Param = S.Param

  datatype Request = Request(verb: string, path: string, params: seq<Param>)

  // ----------------------------------------------------------------- the reader

  /** What comes before the first `c`, and what comes after it. */
  function CutAt(s: string, c: char): (r: Option<(string, string)>)
    ensures r.Some? ==> |r.value.0| + |r.value.1| + 1 == |s|
  {
    if s == [] then None
    else if s[0] == c then Some(([], s[1..]))
    else
      match CutAt(s[1..], c)
      case None => None
      case Some((a, b)) => Some(([s[0]] + a, b))
  }

  function ReadPair(piece: string): Param {
    match CutAt(piece, '=')
    case None => (piece, "")
    case Some(pair) => pair
  }

  function ReadPairs(query: string): seq<Param>
    decreases |query|
  {
    match CutAt(query, '&')
    case None => [ReadPair(query)]
    case Some((first, rest)) => [ReadPair(first)] + ReadPairs(rest)
  }

  function Read(text: string): Option<Request> {
    match CutAt(text, '\n')
    case None => None
    case Some((verb, rest)) =>
      match CutAt(rest, '\n')
      case None => None
      case Some((path, query)) => Some(Request(verb, path, if query == [] then [] else ReadPairs(query)))
  }

  lemma {:induction false} CutAfter(a: string, c: char, rest: string)
    requires c !in a
    ensures CutAt(a + [c] + rest, c) == Some((a, rest))
  {
    var s := a + [c] + rest;
    if a == [] {
      assert s[1..] == rest;
    } else {
      CutAfter(a[1..], c, rest);
      assert s[1..] == a[1..] + [c] + rest && a == [a[0]] + a[1..];
    }
  }

  lemma {:induction false} NoCut(s: string, c: char)
    requires c !in s
    ensures CutAt(s, c) == None
  {
    if s != [] { NoCut(s[1..], c); }
  }

  /** No separator in the key, no ampersand in the value. */
  predicate Plain(p: Param) {
    '=' !in p.0 && '&' !in p.0 && '&' !in p.1
  }

  lemma PairReads(p: Param)
    requires Plain(p)
    ensures ReadPair(S.Pair(p)) == p && '&' !in S.Pair(p) && S.Pair(p) != []
  {
    CutAfter(p.0, '=', p.1);
    assert S.Pair(p) == p.0 + ['='] + p.1;
  }

  lemma {:induction false} JoinedCons(p: Param, ps: seq<Param>)
    requires ps != []
    ensures S.Joined([p] + ps) == S.Pair(p) + ['&'] + S.Joined(ps)
  {
    var all, n := [p] + ps, |ps|;
    assert all[n] == ps[n - 1];
    if n == 1 {
      assert all[..1] == [p];
    } else {
      var front := ps[..n - 1];
      JoinedCons(p, front);
      assert all[..n] == [p] + front;
      calc {
        S.Joined(all);
        S.Joined([p] + front) + "&" + S.Pair(ps[n - 1]);
        S.Pair(p) + ['&'] + S.Joined(front) + "&" + S.Pair(ps[n - 1]);
        S.Pair(p) + ['&'] + (S.Joined(front) + "&" + S.Pair(ps[n - 1]));
        S.Pair(p) + ['&'] + S.Joined(ps);
      }
    }
  }

  lemma {:induction false} JoinedReads(ps: seq<Param>)
    requires ps != [] && forall i | 0 <= i < |ps| :: Plain(ps[i])
    ensures ReadPairs(S.Joined(ps)) == ps && S.Joined(ps) != []
  {
    var p, rest := ps[0], ps[1..];
    PairReads(p);
    if rest == [] {
      NoCut(S.Pair(p), '&');
      assert ps == [p];
    } else {
      assert ps == [p] + rest;
      JoinedReads(rest);
      JoinedCons(p, rest);
      CutAfter(S.Pair(p), '&', S.Joined(rest));
    }
  }

  // ------------------------------------------------------------- what is signed

  /** `l` is `c` in lower case: only the letters from A to Z change, by 32. */
  predicate LowerCase(c: char, l: char) {
    if 'A' <= c <= 'Z' then l as int == c as int + 32 else l == c
  }

  ghost predicate Spells(k: string, l: string) {
    |k| == |l| && forall i | 0 <= i < |k| :: LowerCase(k[i], l[i])
  }

  lemma {:induction false} LowerIff(k: string, l: string)
    ensures S.Lower(k) == l <==> Spells(k, l)
  {
    if k != [] && l != [] {
      LowerIff(k[1..], l[1..]);
      assert k == [k[0]] + k[1..] && l == [l[0]] + l[1..];
      assert forall i | 0 <= i < |k| - 1 :: k[1..][i] == k[i + 1];
      assert forall i | 0 <= i < |l| - 1 :: l[1..][i] == l[i + 1];
      if Spells(k[1..], l[1..]) && LowerCase(k[0], l[0]) {
        forall i | 0 <= i < |k| ensures LowerCase(k[i], l[i]) {
          if i > 0 { assert LowerCase(k[1..][i - 1], l[1..][i - 1]); }
        }
      }
      if Spells(k, l) {
        forall i | 0 <= i < |k| - 1 ensures LowerCase(k[1..][i], l[1..][i]) { assert LowerCase(k[i + 1], l[i + 1]); }
      }
    }
  }
  predicate NotSigned(k: string) {
    k == "auth_signature" || k == "body_md5" || k == "appId" || k == "appKey" || k == "channelName"
  }

  /** The signed pairs of key `l` in the request's own parameters, in their order. */
  ghost function PairsOf(ps: seq<Param>, l: string): seq<Param> {
    if ps == [] then []
    else
      var (k, v) := ps[|ps| - 1];
      PairsOf(ps[..|ps| - 1], l) + if !NotSigned(k) && Spells(k, l) then [(l, v)] else []
  }

  /** With the digest of the body, if there is one, after them. */
  ghost function SignedPairs(ps: seq<Param>, digest: Option<string>, l: string): seq<Param> {
    PairsOf(ps, l) + if digest.Some? && l == "body_md5" then [(l, digest.value)] else []
  }

  /** Byte order: a prefix comes first, otherwise the first difference decides. */
  ghost predicate NotAfter(a: string, b: string) {
    a <= b || exists i | 0 <= i < |a| && i < |b| :: a[..i] == b[..i] && a[i] < b[i]
  }

  lemma {:induction false} AtMostIff(a: string, b: string)
    ensures S.AtMost(a, b) <==> NotAfter(a, b)
  {
    if a != [] && b != [] {
      AtMostIff(a[1..], b[1..]);
      assert a == [a[0]] + a[1..] && b == [b[0]] + b[1..];
      if a[0] == b[0] {
        SameHead(a, b);
      } else {
        assert a[..0] == b[..0];
        if i :| 0 <= i < |a| && i < |b| && a[..i] == b[..i] && a[i] < b[i] {
          assert i > 0 ==> a[..i][0] == b[..i][0];
        }
      }
    }
  }

  lemma SameHead(a: string, b: string)
    requires a != [] && b != [] && a[0] == b[0]
    ensures NotAfter(a, b) <==> NotAfter(a[1..], b[1..])
  {
    var a', b' := a[1..], b[1..];
    assert a == [a[0]] + a' && b == [b[0]] + b';
    if i :| 0 <= i < |a| && i < |b| && a[..i] == b[..i] && a[i] < b[i] {
      assert a'[..i - 1] == a[..i][1..] && b'[..i - 1] == b[..i][1..];
      assert a'[i - 1] < b'[i - 1];
    }
    if i :| 0 <= i < |a'| && i < |b'| && a'[..i] == b'[..i] && a'[i] < b'[i] {
      assert a[..i + 1] == [a[0]] + a'[..i] && b[..i + 1] == [b[0]] + b'[..i];
      assert a[i + 1] < b[i + 1];
    }
  }

  lemma ExcludedIff(k: string)
    ensures k in S.EXCLUDED <==> NotSigned(k)
  {
  }

  lemma {:induction false} GroupIsPairs(ps: seq<Param>, l: string)
    ensures S.Group(ps, l) == PairsOf(ps, l)
  {
    if ps != [] {
      var front, x := ps[..|ps| - 1], ps[|ps| - 1];
      assert ps == front + [x];
      GroupIsPairs(front, l);
      S.GroupSnoc(front, x, l);
      ExcludedIff(x.0);
      LowerIff(x.0, l);
    }
  }

  lemma DigestKeyIsLower()
    ensures S.Lower(S.BODY_MD5) == S.BODY_MD5
  {
    LowerIff(S.BODY_MD5, S.BODY_MD5);
  }

  lemma OneMorePair(es: seq<Param>, d: Param, l: string)
    requires S.Lower(d.0) == d.0
    ensures S.WithKey(S.LowerAll(es + [d]), l) == S.WithKey(S.LowerAll(es), l) + if l == d.0 then [d] else []
  {
    S.LowerOneMore(es, d);
    S.WithKeySnoc(S.LowerAll(es), S.Lowered(d), l);
  }

  lemma EntriesArePairs(ps: seq<Param>, digest: Option<string>, l: string)
    ensures S.WithKey(S.Entries(ps, digest), l) == SignedPairs(ps, digest, l)
  {
    GroupIsPairs(ps, l);
    if digest.None? {
      assert S.Kept(ps) + [] == S.Kept(ps);
    } else {
      DigestKeyIsLower();
      OneMorePair(S.Kept(ps), (S.BODY_MD5, digest.value), l);
    }
  }

  lemma LowerPlain(p: Param)
    requires Plain(p)
    ensures Plain(S.Lowered(p))
  {
    LowerIff(p.0, S.Lower(p.0));
    forall i | 0 <= i < |p.0| ensures S.Lower(p.0)[i] != '=' && S.Lower(p.0)[i] != '&' {
      assert LowerCase(p.0[i], S.Lower(p.0)[i]);
    }
  }

  lemma {:induction false} KeptPlain(ps: seq<Param>)
    requires forall i | 0 <= i < |ps| && !NotSigned(ps[i].0) :: Plain(ps[i])
    ensures forall i | 0 <= i < |S.Kept(ps)| :: Plain(S.Kept(ps)[i])
  {
    if ps != [] {
      KeptPlain(ps[..|ps| - 1]);
      ExcludedIff(ps[|ps| - 1].0);
    }
  }

  lemma EntriesPlain(ps: seq<Param>, digest: Option<string>)
    requires forall i | 0 <= i < |ps| && !NotSigned(ps[i].0) :: Plain(ps[i])
    requires digest.Some? ==> '&' !in digest.value
    ensures forall e | e in S.Entries(ps, digest) :: Plain(e)
  {
    KeptPlain(ps);
    var all := S.Kept(ps) + S.DigestParam(digest);
    S.LowerAllAt(all);
    forall i | 0 <= i < |all| ensures Plain(S.LowerAll(all)[i]) {
      assert Plain(all[i]);
      LowerPlain(all[i]);
    }
  }

  /**
   Reading the canonical string gives the verb, the path and a list in byte order of
   its keys that has, under each key, exactly the signed pairs in their old order.
   */
  lemma CanonicalReads(verb: string, path: string, digest: Option<string>, ps: seq<Param>) returns (params: seq<Param>)
    requires '\n' !in verb && '\n' !in path
    requires forall i | 0 <= i < |ps| && !NotSigned(ps[i].0) :: Plain(ps[i])
    requires digest.Some? ==> '&' !in digest.value
    ensures Read(S.Canonical(verb, path, digest, ps)) == Some(Request(verb, path, params))
    ensures forall i, j | 0 <= i < j < |params| :: NotAfter(params[i].0, params[j].0)
    ensures forall l :: S.WithKey(params, l) == SignedPairs(ps, digest, l)
  {
    var es := S.Entries(ps, digest);
    params := S.SortByKey(es);
    S.SortIsStable(es);
    forall l ensures S.WithKey(params, l) == SignedPairs(ps, digest, l) { EntriesArePairs(ps, digest, l); }
    forall i, j | 0 <= i < j < |params| ensures NotAfter(params[i].0, params[j].0) {
      AtMostIff(params[i].0, params[j].0);
    }
    EntriesPlain(ps, digest);
    S.SortElements(es);
    forall i | 0 <= i < |params| ensures Plain(params[i]) { assert params[i] in params; }
    if params != [] { JoinedReads(params); }
    LinesRead(verb, path, S.Joined(params));
  }

  lemma LinesRead(verb: string, path: string, query: string)
    requires '\n' !in verb && '\n' !in path
    ensures Read(verb + "\n" + path + "\n" + query) ==
            Some(Request(verb, path, if query == [] then [] else ReadPairs(query)))
  {
    var rest := path + ['\n'] + query;
    assert verb + "\n" + path + "\n" + query == verb + ['\n'] + rest;
    CutAfter(verb, '\n', rest);
    CutAfter(path, '\n', query);
  }

  /** A parameter that is not signed may be anywhere and have any value: the string stays the same. */
  lemma NotSignedIsIgnored(verb: string, path: string, digest: Option<string>, ps: seq<Param>, i: nat, p: Param)
    requires i <= |ps| && NotSigned(p.0)
    ensures S.Canonical(verb, path, digest, ps[..i] + [p] + ps[i..]) == S.Canonical(verb, path, digest, ps)
  {
    ExcludedIff(p.0);
    var before := ps[..i] + [p];
    assert before[..i] == ps[..i];
    assert S.Kept(before) == S.Kept(ps[..i]);
    KeptConcat(before, ps[i..]);
    KeptConcat(ps[..i], ps[i..]);
    assert ps[..i] + ps[i..] == ps;
  }

  lemma {:induction false} KeptConcat(a: seq<Param>, b: seq<Param>)
    ensures S.Kept(a + b) == S.Kept(a) + S.Kept(b)
  {
    if b == [] {
      assert a + b == a;
    } else {
      KeptConcat(a, b[..|b| - 1]);
      assert (a + b)[..|a + b| - 1] == a + b[..|b| - 1];
    }
  }
}
