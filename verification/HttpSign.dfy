/**
 The canonical string a request's signature covers. Strings are compared by
 scalar value, which is the order of their UTF-8 bytes. The body's MD5 digest
 is a parameter, absent when the body is empty.
 */
module HttpSign {
  import opened PeerTable

  type Param = (string, string)

  const EXCLUDED: seq<string> := ["auth_signature", "body_md5", "appId", "appKey", "channelName"]
  const BODY_MD5: string := "body_md5"

  // ------------------------------------------------------------- key order

  predicate AtMost(a: string, b: string) {
    a == [] || (b != [] && (a[0] < b[0] || (a[0] == b[0] && AtMost(a[1..], b[1..]))))
  }

  lemma {:induction false} AtMostTotal(a: string, b: string)
    ensures AtMost(a, b) || AtMost(b, a)
  {
    if a != [] && b != [] {
      AtMostTotal(a[1..], b[1..]);
    }
  }

  lemma {:induction false} AtMostAntisymmetric(a: string, b: string)
    requires AtMost(a, b) && AtMost(b, a)
    ensures a == b
  {
    if a != [] && b != [] {
      AtMostAntisymmetric(a[1..], b[1..]);
      assert a == [a[0]] + a[1..] && b == [b[0]] + b[1..];
    }
  }

  lemma {:induction false} AtMostTransitive(a: string, b: string, c: string)
    requires AtMost(a, b) && AtMost(b, c)
    ensures AtMost(a, c)
  {
    if a != [] && a[0] == b[0] == c[0] {
      AtMostTransitive(a[1..], b[1..], c[1..]);
    }
  }

  // ----------------------------------------------------------- stable sort

  ghost predicate Ordered(ps: seq<Param>) {
    forall i, j | 0 <= i < j < |ps| :: AtMost(ps[i].0, ps[j].0)
  }

  /** The entries with the given key, in order. */
  function WithKey(ps: seq<Param>, k: string): seq<Param> {
    if ps == [] then []
    else WithKey(ps[..|ps| - 1], k) + if ps[|ps| - 1].0 == k then [ps[|ps| - 1]] else []
  }

  /** `r` is `ps` sorted by key, entries with equal keys in their old order. */
  ghost predicate StablySorted(ps: seq<Param>, r: seq<Param>) {
    Ordered(r) && forall k :: WithKey(r, k) == WithKey(ps, k)
  }

  function Insert(r: seq<Param>, x: Param): seq<Param> {
    if r == [] || AtMost(r[|r| - 1].0, x.0) then r + [x]
    else Insert(r[..|r| - 1], x) + [r[|r| - 1]]
  }

  function SortByKey(ps: seq<Param>): seq<Param> {
    if ps == [] then [] else Insert(SortByKey(ps[..|ps| - 1]), ps[|ps| - 1])
  }

  lemma WithKeySnoc(ps: seq<Param>, x: Param, k: string)
    ensures WithKey(ps + [x], k) == WithKey(ps, k) + if x.0 == k then [x] else []
  {
    assert (ps + [x])[..|ps|] == ps;
  }

  lemma {:induction false} InsertElements(r: seq<Param>, x: Param)
    ensures forall e :: e in Insert(r, x) <==> e == x || e in r
  {
    if !(r == [] || AtMost(r[|r| - 1].0, x.0)) {
      InsertElements(r[..|r| - 1], x);
      assert r == r[..|r| - 1] + [r[|r| - 1]];
    }
  }

  lemma OrderedSnoc(r: seq<Param>, x: Param)
    requires Ordered(r) && forall e | e in r :: AtMost(e.0, x.0)
    ensures Ordered(r + [x])
  {
    forall i | 0 <= i < |r| ensures AtMost(r[i].0, x.0) {
      assert r[i] in r;
    }
  }

  lemma {:induction false} InsertOrdered(r: seq<Param>, x: Param)
    requires Ordered(r)
    ensures Ordered(Insert(r, x))
  {
    if r == [] {
    } else {
      var front, last := r[..|r| - 1], r[|r| - 1];
      if AtMost(last.0, x.0) {
        forall e | e in r ensures AtMost(e.0, x.0) {
          BelowLast(r, e);
          AtMostTransitive(e.0, last.0, x.0);
        }
        OrderedSnoc(r, x);
      } else {
        InsertOrdered(front, x);
        InsertElements(front, x);
        AtMostTotal(last.0, x.0);
        forall e | e in Insert(front, x) ensures AtMost(e.0, last.0) {
          if e != x {
            assert e in r;
            BelowLast(r, e);
          }
        }
        OrderedSnoc(Insert(front, x), last);
      }
    }
  }

  lemma BelowLast(r: seq<Param>, e: Param)
    requires Ordered(r) && e in r
    ensures AtMost(e.0, r[|r| - 1].0)
  {
    var i :| 0 <= i < |r| && r[i] == e;
    AtMostTotal(e.0, e.0);
  }

  lemma {:induction false} InsertKeepsGroups(r: seq<Param>, x: Param, k: string)
    ensures WithKey(Insert(r, x), k) == WithKey(r, k) + if x.0 == k then [x] else []
  {
    if r == [] || AtMost(r[|r| - 1].0, x.0) {
      WithKeySnoc(r, x, k);
    } else {
      var front, last := r[..|r| - 1], r[|r| - 1];
      InsertKeepsGroups(front, x, k);
      WithKeySnoc(Insert(front, x), last, k);
      AtMostTotal(x.0, x.0);
    }
  }

  /** The sort is a stable sort. */
  lemma {:induction false} SortIsStable(ps: seq<Param>)
    ensures StablySorted(ps, SortByKey(ps))
  {
    if ps != [] {
      var front, x := ps[..|ps| - 1], ps[|ps| - 1];
      SortIsStable(front);
      InsertOrdered(SortByKey(front), x);
      forall k ensures WithKey(SortByKey(ps), k) == WithKey(ps, k) {
        InsertKeepsGroups(SortByKey(front), x, k);
      }
    }
  }

  lemma {:induction false} HasKey(ps: seq<Param>, k: string)
    ensures WithKey(ps, k) != [] <==> exists e :: e in ps && e.0 == k
  {
    if ps != [] {
      HasKey(ps[..|ps| - 1], k);
      assert ps == ps[..|ps| - 1] + [ps[|ps| - 1]];
      if ps[|ps| - 1].0 == k {
        assert ps[|ps| - 1] in ps;
      }
    }
  }

  lemma LastKeyAtMost(r: seq<Param>, s: seq<Param>)
    requires r != [] && Ordered(s) && WithKey(r, r[|r| - 1].0) == WithKey(s, r[|r| - 1].0)
    ensures s != [] && AtMost(r[|r| - 1].0, s[|s| - 1].0)
  {
    var x := r[|r| - 1];
    assert x in r;
    HasKey(r, x.0);
    HasKey(s, x.0);
    var e :| e in s && e.0 == x.0;
    BelowLast(s, e);
  }

  /** A list has only one stable sort, however it is computed. */
  lemma {:induction false} StableSortIsUnique(r: seq<Param>, s: seq<Param>)
    requires Ordered(r) && Ordered(s) && forall k :: WithKey(r, k) == WithKey(s, k)
    ensures r == s
  {
    if r == [] {
      if s != [] {
        LastKeyAtMost(s, r);
      }
    } else {
      LastKeyAtMost(r, s);
      LastKeyAtMost(s, r);
      var x, y := r[|r| - 1], s[|s| - 1];
      AtMostAntisymmetric(x.0, y.0);
      assert WithKey(r, x.0)[|WithKey(r, x.0)| - 1] == x;
      assert WithKey(s, y.0)[|WithKey(s, y.0)| - 1] == y;
      var r', s' := r[..|r| - 1], s[..|s| - 1];
      forall k ensures WithKey(r', k) == WithKey(s', k) {
        assert WithKey(r, k) == WithKey(s, k);
        SameFront(WithKey(r', k), WithKey(s', k), if x.0 == k then [x] else []);
      }
      StableSortIsUnique(r', s');
      assert r == r' + [x] && s == s' + [y];
    }
  }

  lemma SameFront(a: seq<Param>, b: seq<Param>, tail: seq<Param>)
    requires a + tail == b + tail
    ensures a == b
  {
    assert |a| == |b|;
    assert (a + tail)[..|a|] == a && (b + tail)[..|b|] == b;
  }

  // ------------------------------------------------------ canonical string

  function LowerChar(c: char): char {
    if 'A' <= c <= 'Z' then (c as int + 32) as char else c
  }

  function Lower(s: string): string {
    if s == [] then [] else [LowerChar(s[0])] + Lower(s[1..])
  }

  function Lowered(p: Param): Param {
    (Lower(p.0), p.1)
  }

  function LowerAll(ps: seq<Param>): seq<Param> {
    if ps == [] then [] else LowerAll(ps[..|ps| - 1]) + [Lowered(ps[|ps| - 1])]
  }

  /** The parameters that are signed. */
  function Kept(ps: seq<Param>): seq<Param> {
    if ps == [] then []
    else Kept(ps[..|ps| - 1]) + if ps[|ps| - 1].0 in EXCLUDED then [] else [ps[|ps| - 1]]
  }

  function DigestParam(digest: Option<string>): seq<Param> {
    match digest
    case None => []
    case Some(md5) => [(BODY_MD5, md5)]
  }

  /** What is sorted: the signed parameters, then the digest, keys in lower case. */
  function Entries(ps: seq<Param>, digest: Option<string>): seq<Param> {
    LowerAll(Kept(ps) + DigestParam(digest))
  }

  function Pair(p: Param): string {
    p.0 + "=" + p.1
  }

  function Joined(ps: seq<Param>): string {
    if ps == [] then []
    else if |ps| == 1 then Pair(ps[0])
    else Joined(ps[..|ps| - 1]) + "&" + Pair(ps[|ps| - 1])
  }

  function Canonical(verb: string, path: string, digest: Option<string>, ps: seq<Param>): string {
    verb + "\n" + path + "\n" + Joined(SortByKey(Entries(ps, digest)))
  }

  method CanonicalHttpString(verb: string, path: string, digest: Option<string>, ps: seq<Param>) returns (text: string)
    ensures text == Canonical(verb, path, digest, ps)
  {
    var filtered := [];
    for i := 0 to |ps|
      invariant filtered == Kept(ps[..i])
    {
      assert ps[..i + 1][..i] == ps[..i];
      if ps[i].0 !in EXCLUDED {
        filtered := filtered + [ps[i]];
      }
    }
    assert ps[..|ps|] == ps;
    if digest.Some? {
      filtered := filtered + [(BODY_MD5, digest.value)];
    } else {
      assert filtered + [] == filtered;
    }
    filtered := LowerKeys(filtered);
    filtered := SortByKey(filtered);
    var query := Join(filtered);
    text := verb + "\n" + path + "\n" + query;
  }

  method LowerKeys(ps: seq<Param>) returns (r: seq<Param>)
    ensures r == LowerAll(ps)
  {
    r := [];
    for i := 0 to |ps|
      invariant r == LowerAll(ps[..i])
    {
      assert ps[..i + 1][..i] == ps[..i];
      r := r + [Lowered(ps[i])];
    }
    assert ps[..|ps|] == ps;
  }

  method Join(ps: seq<Param>) returns (query: string)
    ensures query == Joined(ps)
  {
    query := [];
    for i := 0 to |ps|
      invariant query == Joined(ps[..i])
    {
      assert ps[..i + 1][..i] == ps[..i];
      query := if i == 0 then Pair(ps[i]) else query + "&" + Pair(ps[i]);
    }
    assert ps[..|ps|] == ps;
  }

  // ------------------------------------------------- permutation invariance

  /** No two keys are equal ignoring ASCII case. */
  ghost predicate DistinctKeys(ps: seq<Param>) {
    forall i, j | 0 <= i < j < |ps| :: Lower(ps[i].0) != Lower(ps[j].0)
  }

  /** The verifier's duplicate check: it passes exactly the lists without a repeated key. */
  method AllDistinct(pairs: seq<Param>) returns (ok: bool)
    ensures ok <==> DistinctKeys(pairs)
  {
    var seen: set<string> := {};
    for i := 0 to |pairs|
      invariant DistinctKeys(pairs[..i])
      invariant forall k :: k in seen <==> exists j :: 0 <= j < i && Lower(pairs[j].0) == k
    {
      var key := Lower(pairs[i].0);
      if key in seen {
        return false;
      }
      seen := seen + {key};
    }
    ok := true;
  }

  /** A parameter that contributes to the group of key `k`. */
  predicate Signs(p: Param, k: string) {
    p.0 !in EXCLUDED && Lower(p.0) == k
  }

  lemma {:induction false} LowerAllSnoc(ps: seq<Param>, qs: seq<Param>)
    ensures LowerAll(ps + qs) == LowerAll(ps) + LowerAll(qs)
  {
    if qs == [] {
      assert ps + qs == ps;
    } else {
      var front, last := qs[..|qs| - 1], qs[|qs| - 1];
      LowerAllSnoc(ps, front);
      assert (ps + qs)[..|ps + qs| - 1] == ps + front;
      assert LowerAll(ps) + LowerAll(front) + [Lowered(last)] == LowerAll(ps) + (LowerAll(front) + [Lowered(last)]);
    }
  }

  lemma {:induction false} WithKeyConcat(a: seq<Param>, b: seq<Param>, k: string)
    ensures WithKey(a + b, k) == WithKey(a, k) + WithKey(b, k)
  {
    if b == [] {
      assert a + b == a;
    } else {
      WithKeyConcat(a, b[..|b| - 1], k);
      assert (a + b)[..|a + b| - 1] == a + b[..|b| - 1];
    }
  }

  function Group(ps: seq<Param>, k: string): seq<Param> {
    WithKey(LowerAll(Kept(ps)), k)
  }

  lemma GroupSnoc(ps: seq<Param>, x: Param, k: string)
    ensures Group(ps + [x], k) == Group(ps, k) + if Signs(x, k) then [Lowered(x)] else []
  {
    assert (ps + [x])[..|ps|] == ps;
    if x.0 in EXCLUDED {
      assert Kept(ps + [x]) == Kept(ps);
    } else {
      assert Kept(ps + [x]) == Kept(ps) + [x];
      assert (Kept(ps) + [x])[..|Kept(ps)|] == Kept(ps);
      WithKeySnoc(LowerAll(Kept(ps)), Lowered(x), k);
    }
  }

  /** Without repeated keys a group is one parameter, or empty. */
  lemma {:induction false} GroupIsSingle(ps: seq<Param>, k: string)
    requires DistinctKeys(ps)
    ensures forall p | p in ps && Signs(p, k) :: Group(ps, k) == [Lowered(p)]
    ensures (forall p | p in ps :: !Signs(p, k)) ==> Group(ps, k) == []
  {
    if ps != [] {
      var front, x := ps[..|ps| - 1], ps[|ps| - 1];
      assert ps == front + [x];
      GroupIsSingle(front, k);
      GroupSnoc(front, x, k);
      if Signs(x, k) {
        OthersDoNotSign(ps, k);
      }
      var was, now := Group(front, k), Group(ps, k);
      assert now == was + if Signs(x, k) then [Lowered(x)] else [];
      forall p | p in ps && Signs(p, k) ensures now == [Lowered(p)] {
        assert p in front || p == x;
      }
    }
  }

  lemma OthersDoNotSign(ps: seq<Param>, k: string)
    requires ps != [] && DistinctKeys(ps) && Signs(ps[|ps| - 1], k)
    ensures forall p | p in ps[..|ps| - 1] :: !Signs(p, k)
  {
    forall p | p in ps[..|ps| - 1] ensures !Signs(p, k) {
      var i :| 0 <= i < |ps| - 1 && ps[i] == p;
    }
  }

  lemma CountOfTwo(ps: seq<Param>, i: nat, j: nat)
    requires i < j < |ps| && ps[i] == ps[j]
    ensures multiset(ps)[ps[i]] >= 2
  {
    assert ps == ps[..j] + [ps[j]] + ps[j + 1..];
    assert ps[i] in ps[..j];
  }

  lemma CountOfOne(ps: seq<Param>, i: nat)
    requires DistinctKeys(ps) && i < |ps|
    ensures multiset(ps)[ps[i]] == 1
  {
    var a, b := ps[..i], ps[i + 1..];
    assert ps == a + [ps[i]] + b;
    assert ps[i] !in a;
    assert ps[i] !in b;
  }

  lemma PermutedDistinct(ps: seq<Param>, qs: seq<Param>)
    requires multiset(ps) == multiset(qs) && DistinctKeys(ps)
    ensures DistinctKeys(qs)
  {
    forall i, j | 0 <= i < j < |qs| ensures Lower(qs[i].0) != Lower(qs[j].0) {
      assert qs[i] in multiset(ps) && qs[j] in multiset(ps);
      var a :| 0 <= a < |ps| && ps[a] == qs[i];
      var b :| 0 <= b < |ps| && ps[b] == qs[j];
      if a == b {
        CountOfTwo(qs, i, j);
        CountOfOne(ps, a);
      }
    }
  }

  lemma PermutedGroups(ps: seq<Param>, qs: seq<Param>, digest: Option<string>, k: string)
    requires multiset(ps) == multiset(qs) && DistinctKeys(ps)
    ensures WithKey(Entries(ps, digest), k) == WithKey(Entries(qs, digest), k)
  {
    PermutedDistinct(ps, qs);
    GroupIsSingle(ps, k);
    GroupIsSingle(qs, k);
    assert forall p :: p in ps <==> p in multiset(ps);
    assert forall p :: p in qs <==> p in multiset(qs);
    var d := DigestParam(digest);
    LowerAllSnoc(Kept(ps), d);
    LowerAllSnoc(Kept(qs), d);
    WithKeyConcat(LowerAll(Kept(ps)), LowerAll(d), k);
    WithKeyConcat(LowerAll(Kept(qs)), LowerAll(d), k);
  }

  /** Every permutation of a list without repeated keys has the same canonical string. */
  lemma PermutationInvariant(verb: string, path: string, digest: Option<string>, ps: seq<Param>, qs: seq<Param>)
    requires multiset(ps) == multiset(qs) && DistinctKeys(ps)
    ensures Canonical(verb, path, digest, ps) == Canonical(verb, path, digest, qs)
  {
    var r, s := SortByKey(Entries(ps, digest)), SortByKey(Entries(qs, digest));
    SortIsStable(Entries(ps, digest));
    SortIsStable(Entries(qs, digest));
    forall k ensures WithKey(r, k) == WithKey(s, k) {
      PermutedGroups(ps, qs, digest, k);
    }
    StableSortIsUnique(r, s);
  }

  lemma LowerBodyMd5()
    ensures Lower(BODY_MD5) == BODY_MD5
  {
    LowerIsSame(BODY_MD5);
  }

  lemma {:induction false} LowerIsSame(s: string)
    requires forall i | 0 <= i < |s| :: !('A' <= s[i] <= 'Z')
    ensures Lower(s) == s
  {
    if s != [] {
      LowerIsSame(s[1..]);
      assert s == [s[0]] + s[1..];
    }
  }

  /** A `body_md5` key in another case is signed too, and always before the digest. */
  lemma MixedCaseTie(ps: seq<Param>, p: Param, md5: string)
    requires DistinctKeys(ps) && p in ps && Lower(p.0) == BODY_MD5 && p.0 != BODY_MD5
    ensures WithKey(SortByKey(Entries(ps, Some(md5))), BODY_MD5) == [(BODY_MD5, p.1), (BODY_MD5, md5)]
  {
    var entries := Entries(ps, Some(md5));
    assert WithKey(SortByKey(entries), BODY_MD5) == WithKey(entries, BODY_MD5) by {
      SortIsStable(entries);
    }
    assert Group(ps, BODY_MD5) == [Lowered(p)] by {
      NotExcluded(p.0);
      GroupIsSingle(ps, BODY_MD5);
    }
    DigestLast(ps, md5);
  }

  lemma DigestLast(ps: seq<Param>, md5: string)
    ensures WithKey(Entries(ps, Some(md5)), BODY_MD5) == Group(ps, BODY_MD5) + [(BODY_MD5, md5)]
  {
    var kept, d := Kept(ps), (BODY_MD5, md5);
    assert (kept + [d])[..|kept|] == kept;
    LowerBodyMd5();
    WithKeySnoc(LowerAll(kept), d, BODY_MD5);
  }

  lemma NotExcluded(key: string)
    requires Lower(key) == BODY_MD5 && key != BODY_MD5
    ensures key !in EXCLUDED
  {
    LowerLength(key);
    assert |key| == |BODY_MD5| == 8;
  }

  lemma {:induction false} LowerLength(s: string)
    ensures |Lower(s)| == |s|
  {
    if s != [] {
      LowerLength(s[1..]);
    }
  }

  // ------------------------------------------- what the string says about its parts

  /** No key holds a separator, no value an ampersand. */
  ghost predicate Separable(ps: seq<Param>) {
    forall p | p in ps :: '&' !in p.0 && '=' !in p.0 && '&' !in p.1
  }

  /** Cutting at the first separator: the parts are determined. */
  lemma FirstCut(a: string, b: string, a': string, b': string, c: char)
    requires c !in a && c !in a' && a + [c] + b == a' + [c] + b'
    ensures a == a' && b == b'
  {
    var s := a + [c] + b;
    assert s[|a|] == c && s[|a'|] == c by { assert s == a' + [c] + b'; }
    assert s[..|a|] == a && s[|a| + 1..] == b;
    assert s[..|a'|] == a' && s[|a'| + 1..] == b' by { assert s == a' + [c] + b'; }
  }

  /** Cutting at the last separator. */
  lemma LastCut(a: string, b: string, a': string, b': string, c: char)
    requires c !in b && c !in b' && a + [c] + b == a' + [c] + b'
    ensures a == a' && b == b'
  {
    var s := a + [c] + b;
    var n := |s|;
    assert n == |a| + 1 + |b| == |a'| + 1 + |b'|;
    assert s[|a|] == c && s[|a'|] == c by { assert s == a' + [c] + b'; }
    assert s[..|a|] == a && s[|a| + 1..] == b;
    assert s[..|a'|] == a' && s[|a'| + 1..] == b' by { assert s == a' + [c] + b'; }
  }

  lemma PairPlain(p: Param)
    requires '&' !in p.0 && '&' !in p.1
    ensures '&' !in Pair(p) && Pair(p) != []
  {
  }

  lemma PairInjective(p: Param, q: Param)
    requires '=' !in p.0 && '=' !in q.0 && Pair(p) == Pair(q)
    ensures p == q
  {
    FirstCut(p.0, p.1, q.0, q.1, '=');
  }

  lemma JoinedShape(ps: seq<Param>)
    requires Separable(ps)
    ensures Joined(ps) == [] <==> ps == []
    ensures '&' in Joined(ps) ==> |ps| > 1
    ensures |ps| > 1 ==> '&' in Joined(ps)
  {
    if |ps| == 1 {
      assert ps[0] in ps;
      PairPlain(ps[0]);
    } else if |ps| > 1 {
      assert '&' in Joined(ps[..|ps| - 1]) + "&";
    }
  }

  /** Separable lists that print alike are equal. */
  lemma {:induction false} JoinedInjective(ps: seq<Param>, qs: seq<Param>)
    requires Separable(ps) && Separable(qs) && Joined(ps) == Joined(qs)
    ensures ps == qs
  {
    JoinedShape(ps);
    JoinedShape(qs);
    if ps != [] {
      var p, q := ps[|ps| - 1], qs[|qs| - 1];
      assert p in ps && q in qs;
      PairPlain(p);
      PairPlain(q);
      if |ps| == 1 {
        PairInjective(p, q);
      } else {
        LastCut(Joined(ps[..|ps| - 1]), Pair(p), Joined(qs[..|qs| - 1]), Pair(q), '&');
        PairInjective(p, q);
        JoinedInjective(ps[..|ps| - 1], qs[..|qs| - 1]);
        assert ps == ps[..|ps| - 1] + [p] && qs == qs[..|qs| - 1] + [q];
      }
    }
  }

  lemma {:induction false} SortElements(ps: seq<Param>)
    ensures forall e :: e in SortByKey(ps) <==> e in ps
  {
    if ps != [] {
      SortElements(ps[..|ps| - 1]);
      InsertElements(SortByKey(ps[..|ps| - 1]), ps[|ps| - 1]);
      assert ps == ps[..|ps| - 1] + [ps[|ps| - 1]];
    }
  }

  /**
   The canonical string determines the verb, the path and, for each key, the signed
   values in order, provided no key holds a separator and no value an ampersand.
   */
  lemma CanonicalDetermines(verb: string, path: string, digest: Option<string>, ps: seq<Param>,
                            verb': string, path': string, digest': Option<string>, qs: seq<Param>, k: string)
    requires '\n' !in verb && '\n' !in path && '\n' !in verb' && '\n' !in path'
    requires Separable(Entries(ps, digest)) && Separable(Entries(qs, digest'))
    requires Canonical(verb, path, digest, ps) == Canonical(verb', path', digest', qs)
    ensures verb == verb' && path == path'
    ensures WithKey(Entries(ps, digest), k) == WithKey(Entries(qs, digest'), k)
  {
    var es, es' := Entries(ps, digest), Entries(qs, digest');
    var query, query' := Joined(SortByKey(es)), Joined(SortByKey(es'));
    CanonicalSplits(verb, path, query, verb', path', query');
    SortElements(es);
    SortElements(es');
    JoinedInjective(SortByKey(es), SortByKey(es'));
    SortIsStable(es);
    SortIsStable(es');
    assert WithKey(SortByKey(es), k) == WithKey(es, k);
    assert WithKey(SortByKey(es'), k) == WithKey(es', k);
  }

  lemma CanonicalSplits(verb: string, path: string, query: string, verb': string, path': string, query': string)
    requires '\n' !in verb && '\n' !in path && '\n' !in verb' && '\n' !in path'
    requires verb + "\n" + path + "\n" + query == verb' + "\n" + path' + "\n" + query'
    ensures verb == verb' && path == path' && query == query'
  {
    assert verb + "\n" + path + "\n" + query == verb + ['\n'] + (path + ['\n'] + query);
    assert verb' + "\n" + path' + "\n" + query' == verb' + ['\n'] + (path' + ['\n'] + query');
    FirstCut(verb, path + ['\n'] + query, verb', path' + ['\n'] + query', '\n');
    FirstCut(path, query, path', query', '\n');
  }

  // ----------------------------------------- exactly when it determines its parts

  /** No upper-case ASCII letter. */
  predicate NoUpper(s: string) {
    forall i | 0 <= i < |s| :: !('A' <= s[i] <= 'Z')
  }

  lemma {:induction false} LowerIsLower(s: string)
    ensures NoUpper(Lower(s)) && |Lower(s)| == |s|
  {
    if s != [] {
      LowerIsLower(s[1..]);
    }
  }

  /** What is joined: ordered by key, keys in lower case. */
  ghost predicate Signed(es: seq<Param>) {
    Ordered(es) && forall i | 0 <= i < |es| :: NoUpper(es[i].0)
  }

  lemma {:induction false} LowerAllAt(ps: seq<Param>)
    ensures |LowerAll(ps)| == |ps| && forall i | 0 <= i < |ps| :: LowerAll(ps)[i] == Lowered(ps[i])
  {
    if ps != [] {
      LowerAllAt(ps[..|ps| - 1]);
    }
  }

  /** Every request signs such a list. */
  lemma EntriesSigned(ps: seq<Param>, digest: Option<string>)
    ensures Signed(SortByKey(Entries(ps, digest)))
  {
    var all := Kept(ps) + DigestParam(digest);
    var es := LowerAll(all);
    var r := SortByKey(es);
    LowerAllAt(all);
    SortIsStable(es);
    SortElements(es);
    forall i | 0 <= i < |r| ensures NoUpper(r[i].0) {
      assert r[i] in es;
      var j :| 0 <= j < |es| && es[j] == r[i];
      LowerIsLower(all[j].0);
    }
  }

  /** The key with its first letter in upper case. */
  function Raised(k: string): string
    requires k != [] && 'a' <= k[0] <= 'z'
  {
    [(k[0] as int - 32) as char] + k[1..]
  }

  lemma RaisedLowers(k: string)
    requires k != [] && 'a' <= k[0] <= 'z' && NoUpper(k)
    ensures 'A' <= Raised(k)[0] <= 'Z' && Lower(Raised(k)) == k
  {
    var t := Raised(k);
    assert t[1..] == k[1..] && LowerChar(t[0]) == k[0];
    LowerIsSame(k[1..]);
    assert k == [k[0]] + k[1..];
  }

  lemma ExcludedStartLower(k: string)
    requires k in EXCLUDED
    ensures k != [] && 'a' <= k[0] <= 'z'
  {
  }

  /** A spelling of `k` that is not left out of the signature: the exclusion is by exact case. */
  lemma Spelled(k: string) returns (t: string)
    requires NoUpper(k)
    ensures t !in EXCLUDED && Lower(t) == k
  {
    if k in EXCLUDED {
      ExcludedStartLower(k);
      RaisedLowers(k);
      t := Raised(k);
      if t in EXCLUDED { ExcludedStartLower(t); }
    } else {
      LowerIsSame(k);
      t := k;
    }
  }

  lemma KeptSnoc(ps: seq<Param>, x: Param)
    requires x.0 !in EXCLUDED
    ensures LowerAll(Kept(ps + [x])) == LowerAll(Kept(ps)) + [Lowered(x)]
  {
    assert (ps + [x])[..|ps|] == ps;
    LowerOneMore(Kept(ps), x);
  }

  lemma LowerOneMore(ps: seq<Param>, x: Param)
    ensures LowerAll(ps + [x]) == LowerAll(ps) + [Lowered(x)]
  {
    assert (ps + [x])[..|ps|] == ps;
  }

  lemma {:induction false} SpelledOut(es: seq<Param>) returns (qs: seq<Param>)
    requires forall i | 0 <= i < |es| :: NoUpper(es[i].0)
    ensures LowerAll(Kept(qs)) == es
  {
    if es == [] {
      qs := [];
    } else {
      var front, e := es[..|es| - 1], es[|es| - 1];
      qs := SpelledOut(front);
      var t := Spelled(e.0);
      KeptSnoc(qs, (t, e.1));
      qs := qs + [(t, e.1)];
      assert es == front + [e];
    }
  }

  /** And every such list is signed by some request. */
  lemma SignedByRequest(es: seq<Param>) returns (qs: seq<Param>)
    requires Signed(es)
    ensures SortByKey(Entries(qs, None)) == es
  {
    qs := SpelledOut(es);
    SortedAlready(es, qs);
  }

  lemma SortedAlready(es: seq<Param>, qs: seq<Param>)
    requires Ordered(es) && LowerAll(Kept(qs)) == es
    ensures SortByKey(Entries(qs, None)) == es
  {
    assert Kept(qs) + [] == Kept(qs);
    SortIsStable(es);
    StableSortIsUnique(SortByKey(es), es);
  }

  /** No request with other signed parameters has this request's canonical string. */
  ghost predicate SignsUniquely(verb: string, path: string, digest: Option<string>, ps: seq<Param>) {
    forall digest': Option<string>, qs: seq<Param> {:trigger Entries(qs, digest')}
      | Canonical(verb, path, digest', qs) == Canonical(verb, path, digest, ps) ::
      SortByKey(Entries(qs, digest')) == SortByKey(Entries(ps, digest))
  }

  /** No other signed list prints the same. */
  ghost predicate PrintsUniquely(es: seq<Param>) {
    forall fs: seq<Param> | Signed(fs) && Joined(fs) == Joined(es) :: fs == es
  }

  lemma CanonicalIsQuery(verb: string, path: string, query: string, query': string)
    ensures verb + "\n" + path + "\n" + query == verb + "\n" + path + "\n" + query' <==> query == query'
  {
    var head := verb + "\n" + path + "\n";
    assert (head + query)[|head|..] == query && (head + query')[|head|..] == query';
  }

  lemma SignsAsPrints(verb: string, path: string, digest: Option<string>, ps: seq<Param>)
    ensures SignsUniquely(verb, path, digest, ps) <==> PrintsUniquely(SortByKey(Entries(ps, digest)))
  {
    var es := SortByKey(Entries(ps, digest));
    if PrintsUniquely(es) {
      forall digest': Option<string>, qs: seq<Param>
        | Canonical(verb, path, digest', qs) == Canonical(verb, path, digest, ps)
        ensures SortByKey(Entries(qs, digest')) == es {
        EntriesSigned(qs, digest');
        CanonicalIsQuery(verb, path, Joined(SortByKey(Entries(qs, digest'))), Joined(es));
      }
    } else {
      var fs :| Signed(fs) && Joined(fs) == Joined(es) && fs != es;
      var qs := SignedByRequest(fs);
      assert Canonical(verb, path, None, qs) == Canonical(verb, path, digest, ps);
    }
  }

  /** The value can be cut at an `=` so that what comes before it extends the key. */
  ghost predicate LongerKey(v: string) {
    exists i | 0 <= i < |v| :: v[i] == '=' && NoUpper(v[..i])
  }

  /** The value can be cut at an `&` into a value and a second parameter that sorts after `k`. */
  ghost predicate SecondParam(k: string, v: string) {
    exists i, j | 0 <= i < j < |v| :: v[i] == '&' && v[j] == '=' && NoUpper(v[i + 1..j]) && AtMost(k, v[i + 1..j])
  }

  /** Nothing signed, or one parameter that can be read in no other way. */
  ghost predicate Unambiguous(es: seq<Param>) {
    es == [] || (|es| == 1 && '=' !in es[0].0 && !LongerKey(es[0].1) && !SecondParam(es[0].0, es[0].1))
  }

  /** Two parameters merge into one. */
  lemma Merged(ps: seq<Param>, a: Param, b: Param)
    ensures Joined(ps + [(a.0, a.1 + "&" + b.0 + "=" + b.1)]) == Joined(ps + [a, b])
  {
    var joint := (a.0, a.1 + "&" + b.0 + "=" + b.1);
    assert (ps + [joint])[..|ps|] == ps;
    assert (ps + [a, b])[..|ps| + 1] == ps + [a];
    assert (ps + [a])[..|ps|] == ps;
    assert Pair(joint) == Pair(a) + "&" + Pair(b);
    if ps == [] {
      assert ps + [joint] == [joint] && ps + [a] == [a] && ps + [a, b] == [a, b];
    } else {
      assert Joined(ps) + "&" + Pair(joint) == Joined(ps) + "&" + Pair(a) + "&" + Pair(b);
    }
  }

  lemma ManyAreAmbiguous(es: seq<Param>)
    requires Signed(es) && |es| >= 2
    ensures !PrintsUniquely(es)
  {
    var front, a, b := es[..|es| - 2], es[|es| - 2], es[|es| - 1];
    var joint := (a.0, a.1 + "&" + b.0 + "=" + b.1);
    var fs := front + [joint];
    Merged(front, a, b);
    assert es == front + [a, b];
    assert forall i | 0 <= i < |fs| :: fs[i].0 == es[i].0;
    assert Signed(fs) && |fs| != |es|;
  }

  lemma KeyIsAmbiguous(p: Param)
    requires NoUpper(p.0) && '=' in p.0
    ensures !PrintsUniquely([p])
  {
    var i :| 0 <= i < |p.0| && p.0[i] == '=';
    var q := (p.0[..i], p.0[i + 1..] + "=" + p.1);
    assert p.0 == p.0[..i] + "=" + p.0[i + 1..];
    assert Pair(q) == Pair(p);
    assert Signed([q]) && Joined([q]) == Joined([p]);
    assert [q][0] != [p][0];
  }

  lemma LongerIsAmbiguous(p: Param)
    requires NoUpper(p.0) && LongerKey(p.1)
    ensures !PrintsUniquely([p])
  {
    var i :| 0 <= i < |p.1| && p.1[i] == '=' && NoUpper(p.1[..i]);
    var q := (p.0 + "=" + p.1[..i], p.1[i + 1..]);
    assert p.1 == p.1[..i] + "=" + p.1[i + 1..];
    assert Pair(q) == Pair(p);
    assert NoUpper(q.0);
    assert Signed([q]) && Joined([q]) == Joined([p]);
    assert [q][0] != [p][0];
  }

  lemma SecondIsAmbiguous(p: Param)
    requires NoUpper(p.0) && SecondParam(p.0, p.1)
    ensures !PrintsUniquely([p])
  {
    var v := p.1;
    var i, j :| 0 <= i < j < |v| && v[i] == '&' && v[j] == '=' && NoUpper(v[i + 1..j]) && AtMost(p.0, v[i + 1..j]);
    CutTwice(v, i, j);
    Splits(p.0, v[..i], v[i + 1..j], v[j + 1..]);
  }

  lemma CutTwice(v: string, i: nat, j: nat)
    requires i < j < |v| && v[i] == '&' && v[j] == '='
    ensures v == v[..i] + "&" + v[i + 1..j] + "=" + v[j + 1..]
  {
    assert v == v[..i] + [v[i]] + v[i + 1..j] + [v[j]] + v[j + 1..];
  }

  lemma OrderedPair(a: Param, b: Param)
    requires NoUpper(a.0) && NoUpper(b.0) && AtMost(a.0, b.0)
    ensures Signed([a, b])
  {
  }

  lemma MergedPair(a: Param, b: Param)
    ensures Joined([(a.0, a.1 + "&" + b.0 + "=" + b.1)]) == Joined([a, b])
  {
    Merged([], a, b);
    assert [] + [a, b] == [a, b];
    assert [] + [(a.0, a.1 + "&" + b.0 + "=" + b.1)] == [(a.0, a.1 + "&" + b.0 + "=" + b.1)];
  }

  lemma Splits(k: string, x: string, k': string, y: string)
    requires NoUpper(k) && NoUpper(k') && AtMost(k, k')
    ensures !PrintsUniquely([(k, x + "&" + k' + "=" + y)])
  {
    var two := [(k, x), (k', y)];
    OrderedPair(two[0], two[1]);
    MergedPair(two[0], two[1]);
    assert |two| == 2;
  }

  /** Another pair that prints the same has a longer key. */
  lemma OtherPair(p: Param, q: Param)
    requires '=' !in p.0 && Pair(q) == Pair(p) && NoUpper(q.0)
    ensures q == p || LongerKey(p.1)
  {
    var s, k := Pair(p), p.0;
    assert s[|k|] == '=' && s[|q.0|] == '=' by { assert s == Pair(q); }
    assert s[..|k|] == k && s[|k| + 1..] == p.1;
    assert s[..|q.0|] == q.0 && s[|q.0| + 1..] == q.1 by { assert s == Pair(q); }
    assert forall m | 0 <= m < |k| :: s[m] != '=';
    if |q.0| > |k| {
      var i := |q.0| - |k| - 1;
      assert p.1[i] == s[|q.0|];
      assert NoUpper(p.1[..i]) by {
        forall m | 0 <= m < i ensures p.1[m] == q.0[|k| + 1 + m] {
          assert p.1[m] == s[|k| + 1 + m];
        }
      }
    }
  }

  /** The first of several parameters, and the key of the second. */
  lemma {:induction false} JoinedHead(fs: seq<Param>) returns (rest: string)
    requires |fs| >= 2
    ensures Joined(fs) == Pair(fs[0]) + "&" + fs[1].0 + "=" + rest
  {
    var front, last := fs[..|fs| - 1], fs[|fs| - 1];
    if |fs| == 2 {
      rest := last.1;
      assert front == [fs[0]];
      assert Joined(fs) == Pair(fs[0]) + "&" + (last.0 + "=" + last.1);
    } else {
      var rest0 := JoinedHead(front);
      rest := rest0 + "&" + Pair(last);
      assert front[0] == fs[0] && front[1] == fs[1];
    }
  }

  /** However a single pair is read: as itself, with a longer key, or with a second parameter. */
  lemma ReadOtherwise(p: Param, fs: seq<Param>)
    requires '=' !in p.0 && Signed(fs) && Joined(fs) == Joined([p])
    ensures fs == [p] || LongerKey(p.1) || SecondParam(p.0, p.1)
  {
    assert Joined([p]) == Pair(p) && |Pair(p)| > 0;
    assert fs != [];
    if |fs| == 1 {
      OtherPair(p, fs[0]);
    } else {
      var rest := JoinedHead(fs);
      var f, g := fs[0], fs[1];
      var q := (f.0, f.1 + "&" + g.0 + "=" + rest);
      assert Pair(q) == Pair(f) + "&" + g.0 + "=" + rest;
      OtherPair(p, q);
      if q == p {
        var i, j := |f.1|, |f.1| + 1 + |g.0|;
        assert p.1[i] == '&' && p.1[j] == '=' && p.1[i + 1..j] == g.0;
        assert AtMost(fs[0].0, fs[1].0);
      }
    }
  }

  lemma PrintsUniquelyIff(es: seq<Param>)
    requires Signed(es)
    ensures PrintsUniquely(es) <==> Unambiguous(es)
  {
    if es == [] {
      forall fs: seq<Param> | Signed(fs) && Joined(fs) == Joined(es) ensures fs == es {
        if fs != [] { JoinedNotEmpty(fs); }
      }
    } else if |es| >= 2 {
      ManyAreAmbiguous(es);
    } else {
      var p := es[0];
      assert es == [p];
      if Unambiguous(es) {
        forall fs: seq<Param> | Signed(fs) && Joined(fs) == Joined(es) ensures fs == es {
          ReadOtherwise(p, fs);
        }
      } else if '=' in p.0 {
        KeyIsAmbiguous(p);
      } else if LongerKey(p.1) {
        LongerIsAmbiguous(p);
      } else {
        SecondIsAmbiguous(p);
      }
    }
  }

  lemma JoinedNotEmpty(fs: seq<Param>)
    requires fs != []
    ensures Joined(fs) != []
  {
    assert '=' in Pair(fs[|fs| - 1]) by { assert Pair(fs[|fs| - 1])[|fs[|fs| - 1].0|] == '='; }
  }

  /**
   Exactly when the canonical string tells what was signed: no parameter at all, or
   a single one whose key has no `=` and whose value cannot be cut at an `=` into
   a longer lower-case key, nor at an `&` into a second parameter that sorts after
   it. Two parameters or more always print like fewer.
   */
  lemma SignsUniquelyIff(verb: string, path: string, digest: Option<string>, ps: seq<Param>)
    ensures SignsUniquely(verb, path, digest, ps) <==> Unambiguous(SortByKey(Entries(ps, digest)))
  {
    SignsAsPrints(verb, path, digest, ps);
    EntriesSigned(ps, digest);
    PrintsUniquelyIff(SortByKey(Entries(ps, digest)));
  }

  // A request that signs like another.

  lemma {:induction false} KeptAsIs(es: seq<Param>)
    requires forall i | 0 <= i < |es| :: es[i].0 !in EXCLUDED && NoUpper(es[i].0)
    ensures LowerAll(Kept(es)) == es
  {
    if es != [] {
      var front, e := es[..|es| - 1], es[|es| - 1];
      KeptAsIs(front);
      LowerIsSame(e.0);
      KeptSnoc(front, e);
      assert es == front + [e];
    }
  }

  lemma SignedAsIs(es: seq<Param>)
    requires Signed(es) && forall i | 0 <= i < |es| :: es[i].0 !in EXCLUDED
    ensures SortByKey(Entries(es, None)) == es
  {
    KeptAsIs(es);
    SortedAlready(es, es);
  }

  /** One parameter whose value spells a second one is signed like the two. */
  lemma AmbiguousFails(verb: string, path: string)
    ensures Canonical(verb, path, None, [("a", "1&b=2")]) == Canonical(verb, path, None, [("a", "1"), ("b", "2")])
    ensures SortByKey(Entries([("a", "1&b=2")], None)) == [("a", "1&b=2")]
    ensures SortByKey(Entries([("a", "1"), ("b", "2")], None)) == [("a", "1"), ("b", "2")]
  {
    SpelledTwice(verb, path, "a", "1", "b", "2", "1&b=2");
  }

  lemma SpelledTwice(verb: string, path: string, k: string, x: string, k': string, y: string, v: string)
    requires |k| == |k'| == 1 && NoUpper(k) && NoUpper(k') && k[0] < k'[0] && v == x + "&" + k' + "=" + y
    ensures Canonical(verb, path, None, [(k, v)]) == Canonical(verb, path, None, [(k, x), (k', y)])
    ensures SortByKey(Entries([(k, v)], None)) == [(k, v)]
    ensures SortByKey(Entries([(k, x), (k', y)], None)) == [(k, x), (k', y)]
  {
    ShortIsKept(k);
    ShortIsKept(k');
    SignedAsIs([(k, v)]);
    OrderedPair((k, x), (k', y));
    SignedAsIs([(k, x), (k', y)]);
    MergedPair((k, x), (k', y));
  }

  lemma ShortIsKept(k: string)
    requires |k| == 1
    ensures k !in EXCLUDED
  {
  }
}
