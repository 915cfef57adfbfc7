/** Vocabulary shared by every handler: document ids, optional request
    fields, JavaScript truthiness and the HTTP status codes the handlers send. */
module Common {

  /** A document id. The store issues ids from its logical clock. */
  type Id = nat

  datatype Option<+T> = None | Some(value: T)

  /** A string field of a request body is truthy in JavaScript when it is
      present and not the empty string. */
  predicate Truthy(s: Option<string>) {
    s.Some? && s.value != ""
  }

  /** A numeric field is truthy when it is present and not zero. */
  predicate TruthyNumber(x: Option<int>) {
    x.Some? && x.value != 0
  }

  /** A read handler's answer: the status code and, on success, the document sent. */
  datatype Reply<+T> = Reply(code: int, body: Option<T>)

  const Ok: int := 200
  const Created: int := 201
  const BadRequest: int := 400
  const Unauthorized: int := 401
  const Forbidden: int := 403
  const NotFound: int := 404
  const ServerError: int := 500

  /** Every key of `m` was issued before clock reading `n`. */
  predicate IdsBelow<T>(m: map<Id, T>, n: nat) {
    forall id :: id in m ==> id < n
  }

  /** The ids of `m` below `n` in increasing order: the order in which the clock
      issued them, which is the collection's natural order. */
  function KeysBelow<T>(m: map<Id, T>, n: nat): (r: seq<Id>)
    ensures forall i :: 0 <= i < |r| ==> r[i] in m && r[i] < n
    ensures forall id :: id in m && id < n ==> id in r
    ensures forall i, j :: 0 <= i < j < |r| ==> r[i] < r[j]
  {
    if n == 0 then []
    else KeysBelow(m, n - 1) + (if n - 1 in m then [n - 1] else [])
  }

  predicate Increasing(s: seq<Id>) {
    forall i, j :: 0 <= i < j < |s| ==> s[i] < s[j]
  }

  function Elems(s: seq<Id>): set<Id> {
    set x | x in s
  }

  /** A strictly increasing sequence has no repeats, so it has as many
      elements as distinct values. */
  lemma {:induction false} IncreasingCount(s: seq<Id>)
    requires Increasing(s)
    ensures |Elems(s)| == |s|
  {
    if s != [] {
      var p := s[..|s| - 1];
      var last := s[|s| - 1];
      forall i, j | 0 <= i < j < |p|
        ensures p[i] < p[j]
      {
        assert p[i] == s[i] && p[j] == s[j];
      }
      IncreasingCount(p);
      forall i | 0 <= i < |p|
        ensures p[i] != last
      {
        assert p[i] == s[i];
      }
      ElemsSnoc(p, last);
      assert s == p + [last];
    }
  }

  lemma ElemsSnoc(p: seq<Id>, x: Id)
    ensures Elems(p + [x]) == Elems(p) + {x}
  {
    forall y | y in Elems(p + [x])
      ensures y in Elems(p) + {x}
    {
      var i :| 0 <= i < |p + [x]| && (p + [x])[i] == y;
      if i < |p| {
        assert p[i] == y;
      }
    }
  }

  /** When the clock issued every key of `m`, the listing covers all of `m`, once each. */
  lemma ListingCoversAll<T>(m: map<Id, T>, n: nat)
    requires IdsBelow(m, n)
    ensures |KeysBelow(m, n)| == |m|
  {
    var r := KeysBelow(m, n);
    IncreasingCount(r);
    assert Elems(r) == m.Keys;
  }

  /** The documents of `m` in natural order. */
  function Documents<T>(m: map<Id, T>, n: nat): (r: seq<T>)
    ensures |r| == |KeysBelow(m, n)|
    ensures forall i :: 0 <= i < |r| ==> r[i] == m[KeysBelow(m, n)[i]]
  {
    var ks := KeysBelow(m, n);
    seq(|ks|, i requires 0 <= i < |ks| => m[ks[i]])
  }

  /** Every document listed is a document of `m`. */
  lemma DocumentsFromMap<T>(m: map<Id, T>, n: nat)
    ensures forall i :: 0 <= i < |Documents(m, n)| ==> Documents(m, n)[i] in m.Values
  {
    var ks := KeysBelow(m, n);
    var r := Documents(m, n);
    forall i | 0 <= i < |r|
      ensures r[i] in m.Values
    {
      assert ks[i] in m && m[ks[i]] == r[i];
    }
  }

  /** When the clock issued every key of `m`, every document of `m` is listed. */
  lemma DocumentsCoverMap<T>(m: map<Id, T>, n: nat)
    requires IdsBelow(m, n)
    ensures forall id :: id in m ==> m[id] in Documents(m, n)
  {
    var ks := KeysBelow(m, n);
    var r := Documents(m, n);
    forall id | id in m
      ensures m[id] in r
    {
      var i :| 0 <= i < |ks| && ks[i] == id;
      assert r[i] == m[id];
    }
  }

  /** When the clock issued every key of `m`, its documents in natural order hold
      every document of `m` exactly once and nothing else. */
  lemma DocumentsListAll<T>(m: map<Id, T>, n: nat)
    requires IdsBelow(m, n)
    ensures |Documents(m, n)| == |m|
    ensures forall i :: 0 <= i < |Documents(m, n)| ==> Documents(m, n)[i] in m.Values
    ensures forall id :: id in m ==> m[id] in Documents(m, n)
  {
    ListingCoversAll(m, n);
    DocumentsFromMap(m, n);
    DocumentsCoverMap(m, n);
  }

  /** A set of ids holding `x` has a least element: either `x` is it, or some
      smaller member leads to it. */
  lemma {:induction false} LeastExists(s: set<Id>, x: Id)
    requires x in s
    ensures exists least :: least in s && forall j :: j in s ==> least <= j
    decreases x
  {
    if y :| y in s && y < x {
      LeastExists(s, y);
    } else {
      assert forall j :: j in s ==> x <= j;
    }
  }

  lemma NonEmptyHasLeast(s: set<Id>)
    requires s != {}
    ensures exists least :: least in s && forall j :: j in s ==> least <= j
  {
    var x :| x in s;
    LeastExists(s, x);
  }

  /** The least id in `s`, as `findOne` picks the first match in natural order. */
  function Least(s: set<Id>): (r: Id)
    requires s != {}
    ensures r in s && forall j :: j in s ==> r <= j
  {
    NonEmptyHasLeast(s);
    var least :| least in s && forall j :: j in s ==> least <= j;
    least
  }
}
