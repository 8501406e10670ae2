/** Shared vocabulary of the model: identifiers, request parameters, the handler
    response envelope and a few sequence helpers used by several pipelines. */
module Base {

  /** Document identifiers (MongoDB ObjectIds), drawn from one counter so that
      they are unique across collections, as ObjectIds are. */
  type Id = nat

  datatype Option<+T> = None | Some(value: T)

  /** What a handler ends with: a success status with its payload, or an error
      status (an ApiError, or 500 for any other exception that reaches the
      asynchronous handler wrapper). */
  datatype Response<+T> = Ok(status: int, data: T) | Err(status: int)

  /** Whether a toggle left its record present (created) or absent (deleted). */
  datatype Presence = Present | Absent

  const OK: int := 200
  const Created: int := 201
  const BadRequest: int := 400
  const Unauthorized: int := 401
  const Forbidden: int := 403
  const NotFound: int := 404
  const Conflict: int := 409
  const ServerError: int := 500

  /** An identifier as it arrives in a request: either the text of a well-formed
      ObjectId, or any other text. */
  datatype RawId = ObjectId(id: Id) | Malformed(text: string)

  /** `isValidObjectId` from the ODM, kept abstract: only the well-formed form passes. */
  predicate IsValidObjectId(r: RawId) {
    r.ObjectId?
  }

  /** JavaScript truthiness of an optional string field (`undefined` and `""` are falsy). */
  predicate Truthy(s: Option<string>) {
    s.Some? && s.value != ""
  }

  /** JavaScript truthiness of an identifier parameter (only the empty text is falsy). */
  predicate PresentId(r: RawId) {
    r != Malformed("")
  }

  predicate IsLeast(m: Id, s: set<Id>) {
    m in s && forall y :: y in s ==> m <= y
  }

  lemma {:induction false} LeastExists(s: set<Id>)
    requires s != {}
    ensures exists m :: IsLeast(m, s)
  {
    var x :| x in s;
    var rest := s - {x};
    if rest == {} {
      assert s == {x};
      assert IsLeast(x, s);
    } else {
      LeastExists(rest);
      var m :| IsLeast(m, rest);
      var least := if x < m then x else m;
      forall y | y in s
        ensures least <= y
      {
        if y != x {
          assert y in rest;
        }
      }
      assert IsLeast(least, s);
    }
  }

  /** The smallest identifier of a non-empty set. */
  function Least(s: set<Id>): (m: Id)
    requires s != {}
    ensures m in s && forall y :: y in s ==> m <= y
  {
    LeastExists(s);
    var m :| IsLeast(m, s); m
  }

  /** The identifiers of a set in ascending order: the order in which this model
      lets a collection scan return its documents. */
  function Ascending(s: set<Id>): (r: seq<Id>)
    ensures forall x :: x in r <==> x in s
    ensures forall i, j :: 0 <= i < j < |r| ==> r[i] < r[j]
    ensures |r| == |s|
    decreases |s|
  {
    if s == {} then []
    else
      var m := Least(s);
      var rest := Ascending(s - {m});
      var r := [m] + rest;
      forall i, j | 0 <= i < j < |r|
        ensures r[i] < r[j]
      {
        assert r[j] == rest[j - 1] && r[j] in s - {m};
        if i > 0 {
          assert r[i] == rest[i - 1];
        }
      }
      r
  }

  /** The keys of a table in scan order. */
  function ScanOrder<T>(m: map<Id, T>): (r: seq<Id>)
    ensures forall x :: x in r <==> x in m
    ensures NoDuplicates(r)
  {
    Ascending(m.Keys)
  }

  predicate NoDuplicates<T(==)>(s: seq<T>) {
    forall i, j :: 0 <= i < j < |s| ==> s[i] != s[j]
  }

  /** The elements of `s` that satisfy `p`, in their original order. */
  function Filter(s: seq<Id>, p: Id -> bool): (r: seq<Id>)
    ensures forall x :: x in r <==> x in s && p(x)
    ensures |r| <= |s|
    ensures NoDuplicates(s) ==> NoDuplicates(r)
  {
    if s == [] then []
    else
      var rest := Filter(s[1..], p);
      assert forall x :: x in s[1..] ==> x in s;
      if p(s[0]) then
        assert NoDuplicates(s) ==> s[0] !in s[1..];
        [s[0]] + rest
      else rest
  }

  /** `$pull`: every occurrence of `x` removed, the rest kept in order. */
  function Without(s: seq<Id>, x: Id): (r: seq<Id>)
    ensures forall y :: y in r <==> y in s && y != x
    ensures NoDuplicates(s) ==> NoDuplicates(r)
    ensures x !in s ==> r == s
  {
    if x in s then Filter(s, y => y != x) else s
  }

  /** A duplicate-free sequence has as many elements as the set of its elements. */
  lemma {:induction false} DistinctLength(s: seq<Id>, elems: set<Id>)
    requires NoDuplicates(s)
    requires forall x :: x in s <==> x in elems
    ensures |elems| == |s|
  {
    if s != [] {
      var rest := s[1..];
      forall i, j | 0 <= i < j < |rest|
        ensures rest[i] != rest[j]
      {
        assert rest[i] == s[i + 1] && rest[j] == s[j + 1];
      }
      forall x
        ensures x in rest <==> x in elems - {s[0]}
      {
        if x in rest {
          var i :| 0 <= i < |rest| && rest[i] == x;
          assert s[i + 1] == x;
        }
        if x in s && x != s[0] {
          var i :| 0 <= i < |s| && s[i] == x;
          assert rest[i - 1] == x;
        }
      }
      DistinctLength(rest, elems - {s[0]});
    }
  }
}
