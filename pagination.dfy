/**
 * The order and the window of the email listing:
 * `ORDER BY received_at DESC NULLS LAST, id DESC OFFSET (page - 1) * page_size LIMIT page_size`.
 * `Sort` is an insertion sort; `SortOrders` and `SortPermutes` say it yields that order
 * and loses or invents no row.
 */
module Pagination {
  import opened Wrappers
  import opened Models

  /** `a` is listed strictly before `b`. */
  predicate Precedes(a: Email, b: Email) {
    match (a.receivedAt, b.receivedAt)
    case (Some(x), Some(y)) => x > y || (x == y && a.id > b.id)
    case (Some(_), None) => true
    case (None, Some(_)) => false
    case (None, None) => a.id > b.id
  }

  /** No email is listed after one that should come after it. */
  ghost predicate Ordered(s: seq<Email>) {
    forall i, j :: 0 <= i < j < |s| ==> !Precedes(s[j], s[i])
  }

  lemma PrecedesIrreflexive(a: Email)
    ensures !Precedes(a, a)
  {
  }

  lemma PrecedesTransitive(a: Email, b: Email, c: Email)
    requires Precedes(a, b) && Precedes(b, c)
    ensures Precedes(a, c)
  {
  }

  /** Two emails with different sort keys are ordered one way or the other. */
  lemma PrecedesTotal(a: Email, b: Email)
    ensures Precedes(a, b) || Precedes(b, a) || (a.receivedAt == b.receivedAt && a.id == b.id)
  {
  }

  /** "Not before" is transitive, because the keys are totally ordered. */
  lemma NotPrecedesTransitive(a: Email, b: Email, c: Email)
    requires !Precedes(a, b) && !Precedes(b, c)
    ensures !Precedes(a, c)
  {
    PrecedesTotal(a, b);
    PrecedesTotal(b, c);
    if Precedes(a, c) {
      if Precedes(b, a) {
        PrecedesTransitive(b, a, c);
      }
    }
  }

  function Insert(x: Email, s: seq<Email>): (r: seq<Email>)
    ensures multiset(r) == multiset(s) + multiset{x}
    ensures |r| == |s| + 1
  {
    if s == [] || !Precedes(s[0], x) then [x] + s
    else
      assert s == [s[0]] + s[1..];
      [s[0]] + Insert(x, s[1..])
  }

  function Sort(s: seq<Email>): (r: seq<Email>)
    ensures multiset(r) == multiset(s)
    ensures |r| == |s|
  {
    if s == [] then []
    else
      assert s == [s[0]] + s[1..];
      Insert(s[0], Sort(s[1..]))
  }

  lemma OrderedCons(h: Email, t: seq<Email>)
    requires Ordered(t)
    requires forall k :: 0 <= k < |t| ==> !Precedes(t[k], h)
    ensures Ordered([h] + t)
  {
    var r := [h] + t;
    forall i, j | 0 <= i < j < |r| ensures !Precedes(r[j], r[i]) {
      if i == 0 {
        assert r[j] == t[j - 1];
      } else {
        assert r[i] == t[i - 1] && r[j] == t[j - 1];
      }
    }
  }

  lemma OrderedTail(s: seq<Email>)
    requires Ordered(s) && s != []
    ensures Ordered(s[1..])
    ensures forall k :: 0 <= k < |s[1..]| ==> !Precedes(s[1..][k], s[0])
  {
    var t := s[1..];
    forall i, j | 0 <= i < j < |t| ensures !Precedes(t[j], t[i]) {
      assert t[i] == s[i + 1] && t[j] == s[j + 1];
    }
    forall k | 0 <= k < |t| ensures !Precedes(t[k], s[0]) {
      assert t[k] == s[k + 1];
    }
  }

  /** Inserting before a head that does not precede `x` keeps the order. */
  lemma InsertAtHeadOrders(x: Email, s: seq<Email>)
    requires Ordered(s) && (s == [] || !Precedes(s[0], x))
    ensures Ordered([x] + s)
  {
    if s != [] {
      OrderedTail(s);
      forall k | 0 <= k < |s| ensures !Precedes(s[k], x) {
        if k > 0 {
          assert s[k] == s[1..][k - 1];
          NotPrecedesTransitive(s[k], s[0], x);
        }
      }
    }
    OrderedCons(x, s);
  }

  lemma InsertBelowHeadOrders(x: Email, s: seq<Email>)
    requires Ordered(s) && s != [] && Precedes(s[0], x)
    requires Ordered(Insert(x, s[1..]))
    ensures Ordered([s[0]] + Insert(x, s[1..]))
  {
    var tail := s[1..];
    var rest := Insert(x, tail);
    OrderedTail(s);
    forall k | 0 <= k < |rest| ensures !Precedes(rest[k], s[0]) {
      assert rest[k] in multiset(tail) + multiset{x};
      if rest[k] == x {
        PrecedesTotal(s[0], x);
        if Precedes(x, s[0]) {
          PrecedesTransitive(x, s[0], x);
        }
      } else {
        assert rest[k] in tail;
        var m :| 0 <= m < |tail| && tail[m] == rest[k];
      }
    }
    OrderedCons(s[0], rest);
  }

  lemma {:induction false} InsertOrders(x: Email, s: seq<Email>)
    requires Ordered(s)
    ensures Ordered(Insert(x, s))
    decreases |s|
  {
    if s == [] || !Precedes(s[0], x) {
      InsertAtHeadOrders(x, s);
    } else {
      OrderedTail(s);
      InsertOrders(x, s[1..]);
      InsertBelowHeadOrders(x, s);
    }
  }

  /** The listing is in `ORDER BY received_at DESC NULLS LAST, id DESC` order. */
  lemma {:induction false} SortOrders(s: seq<Email>)
    ensures Ordered(Sort(s))
    decreases |s|
  {
    if s != [] {
      SortOrders(s[1..]);
      InsertOrders(s[0], Sort(s[1..]));
    }
  }

  /** Sorting keeps exactly the rows it was given. */
  lemma SortPermutes(s: seq<Email>)
    ensures multiset(Sort(s)) == multiset(s)
    ensures forall e :: e in Sort(s) <==> e in s
  {
    forall e ensures e in Sort(s) <==> e in s {
      assert e in Sort(s) <==> e in multiset(Sort(s));
      assert e in s <==> e in multiset(s);
    }
  }

  /** `OFFSET offset LIMIT limit`. */
  function Window<T>(s: seq<T>, offset: nat, limit: nat): (r: seq<T>)
    ensures |r| <= limit && |r| <= |s|
    ensures offset < |s| ==> |r| > 0 || limit == 0
    ensures forall k :: 0 <= k < |r| ==> offset + k < |s| && r[k] == s[offset + k]
    ensures |r| == if offset >= |s| then 0 else if offset + limit <= |s| then limit else |s| - offset
  {
    if offset >= |s| then []
    else s[offset..if offset + limit <= |s| then offset + limit else |s|]
  }
}
