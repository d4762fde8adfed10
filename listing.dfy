/**
 * An in-memory stand-in for the database query the list handler issues: order the
 * collection by one field (ascending or descending), skip a number of records, take at most
 * `limit`. The database fixes no order among records with equal keys, so any ordering that
 * is sorted by the key and is a permutation of the collection is a possible answer.
 */
module Listing {
  import opened JsString
  import opened IncidentModel

  /** The value a record holds under a sort field, in the database's cross-type order. */
  datatype SortKey = Missing | Num(n: int) | Text(s: string)

  /**
   * The key of a record under a field name. `priority` and `status` are stored as their
   * names and so compare as text; the timestamps compare as instants; a name that is no
   * field of the record gives the same `Missing` key for every record. So does `__v`,
   * the version key every created document holds as 0: one key shared by every record
   * constrains the order exactly as a missing field does.
   */
  function KeyOf(i: Incident, field: string): SortKey {
    if field == "customerName" then Text(i.customerName)
    else if field == "description" then Text(i.description)
    else if field == "priority" then Text(PriorityName(i.priority))
    else if field == "status" then Text(StatusName(i.status))
    else if field == "createdAt" then Num(i.createdAt)
    else if field == "updatedAt" then Num(i.updatedAt)
    else if field == "_id" then Text(i.id)
    else Missing
  }

  /**
   * The database's comparison of the keys used here: missing values first, then numbers,
   * then strings. Every field gives one kind of key for every record (KeyOf), so only the
   * order within one kind ever decides anything; other kinds, such as dates, do not arise.
   */
  predicate KeyLe(a: SortKey, b: SortKey) {
    match (a, b)
    case (Missing, _) => true
    case (Num(x), Num(y)) => x <= y
    case (Num(_), Text(_)) => true
    case (Text(x), Text(y)) => StrLe(x, y)
    case _ => false
  }

  lemma KeyLeTotal(a: SortKey, b: SortKey)
    ensures KeyLe(a, b) || KeyLe(b, a)
  {
    if a.Text? && b.Text? { StrLeTotal(a.s, b.s); }
  }

  lemma KeyLeTransitive(a: SortKey, b: SortKey, c: SortKey)
    requires KeyLe(a, b) && KeyLe(b, c)
    ensures KeyLe(a, c)
  {
    if a.Text? && b.Text? && c.Text? { StrLeTransitive(a.s, b.s, c.s); }
  }

  /** Keys that are each at most the other are the same key. */
  lemma KeyLeAntisymmetric(a: SortKey, b: SortKey)
    requires KeyLe(a, b) && KeyLe(b, a)
    ensures a == b
  {
    if a.Text? && b.Text? { StrLeAntisymmetric(a.s, b.s); }
  }

  /** `x` may come before `y` when sorting by `field` in the given direction. */
  predicate InOrder(x: Incident, y: Incident, field: string, descending: bool) {
    if descending then KeyLe(KeyOf(y, field), KeyOf(x, field)) else KeyLe(KeyOf(x, field), KeyOf(y, field))
  }

  predicate SortedBy(s: seq<Incident>, field: string, descending: bool) {
    forall i, j :: 0 <= i < j < |s| ==> InOrder(s[i], s[j], field, descending)
  }

  /** `view` is an order in which the database may return `collection`. */
  predicate IsSortedView(collection: seq<Incident>, field: string, descending: bool, view: seq<Incident>) {
    multiset(view) == multiset(collection) && SortedBy(view, field, descending)
  }

  /** Inserting one record into a sorted sequence at its place. */
  function Insert(x: Incident, s: seq<Incident>, field: string, descending: bool): (r: seq<Incident>)
    requires SortedBy(s, field, descending)
    ensures multiset(r) == multiset(s) + multiset{x}
    ensures SortedBy(r, field, descending)
  {
    if s == [] then [x]
    else if InOrder(x, s[0], field, descending) then
      assert forall j :: 0 <= j < |s| ==> InOrder(x, s[j], field, descending) by {
        forall j | 0 <= j < |s| ensures InOrder(x, s[j], field, descending) {
          if j > 0 {
            if descending {
              KeyLeTransitive(KeyOf(s[j], field), KeyOf(s[0], field), KeyOf(x, field));
            } else {
              KeyLeTransitive(KeyOf(x, field), KeyOf(s[0], field), KeyOf(s[j], field));
            }
          }
        }
      }
      [x] + s
    else
      var rest := Insert(x, s[1..], field, descending);
      KeyLeTotal(KeyOf(x, field), KeyOf(s[0], field));
      assert s == [s[0]] + s[1..];
      assert forall j :: 0 <= j < |rest| ==> InOrder(s[0], rest[j], field, descending) by {
        forall j | 0 <= j < |rest| ensures InOrder(s[0], rest[j], field, descending) {
          assert rest[j] in multiset(rest);
          if rest[j] != x {
            assert rest[j] in multiset(s[1..]);
            var k :| 0 <= k < |s[1..]| && s[1..][k] == rest[j];
            assert s[k + 1] == rest[j];
          }
        }
      }
      [s[0]] + rest
  }

  /** One possible database order: insertion sort, which keeps equal keys in input order. */
  function SortByKey(collection: seq<Incident>, field: string, descending: bool): (r: seq<Incident>)
    ensures IsSortedView(collection, field, descending, r)
  {
    if collection == [] then []
    else
      assert collection == [collection[0]] + collection[1..];
      Insert(collection[0], SortByKey(collection[1..], field, descending), field, descending)
  }

  /** Every collection has at least one order in which the database may return it. */
  lemma SortedViewExists(collection: seq<Incident>, field: string, descending: bool)
    ensures exists view :: IsSortedView(collection, field, descending, view)
  {
    var view := SortByKey(collection, field, descending);
    assert IsSortedView(collection, field, descending, view);
  }

  /** For a field that no record has, every order of the collection is sorted. */
  lemma UnknownFieldAnyOrder(collection: seq<Incident>, field: string, descending: bool, view: seq<Incident>)
    requires field !in {"customerName", "description", "priority", "status", "createdAt", "updatedAt", "_id"}
    requires multiset(view) == multiset(collection)
    ensures IsSortedView(collection, field, descending, view)
  {
  }

  /**
   * `x` may come before `y` in the order of the sort `{ [field]: direction }` or, when `byId`,
   * of `{ [field]: direction, _id: 1 }`, which orders records with equal keys by their ids.
   */
  predicate Before(x: Incident, y: Incident, field: string, descending: bool, byId: bool) {
    InOrder(x, y, field, descending) && (byId && InOrder(y, x, field, descending) ==> StrLe(x.id, y.id))
  }

  predicate SortedWith(s: seq<Incident>, field: string, descending: bool, byId: bool) {
    forall i, j :: 0 <= i < j < |s| ==> Before(s[i], s[j], field, descending, byId)
  }

  /**
   * The sort leaves no two records of the collection tied: without the id tie-breaker, no
   * two share a key; with it, no two share an id.
   */
  predicate NoTies(collection: seq<Incident>, field: string, byId: bool) {
    forall i, j :: 0 <= i < j < |collection| ==>
      if byId then collection[i].id != collection[j].id
      else KeyOf(collection[i], field) != KeyOf(collection[j], field)
  }

  /** Two records of a collection without ties that may each come before the other are one record. */
  lemma MutualBeforeSame(collection: seq<Incident>, field: string, descending: bool, byId: bool, x: Incident, y: Incident)
    requires NoTies(collection, field, byId)
    requires x in collection && y in collection
    requires Before(x, y, field, descending, byId) && Before(y, x, field, descending, byId)
    ensures x == y
  {
    var i :| 0 <= i < |collection| && collection[i] == x;
    var j :| 0 <= j < |collection| && collection[j] == y;
    KeyLeAntisymmetric(KeyOf(x, field), KeyOf(y, field));
    if byId { StrLeAntisymmetric(x.id, y.id); }
    if i < j {
      assert false;
    } else if j < i {
      assert false;
    }
  }

  /** Two sorted arrangements of the same records of a collection without ties start alike. */
  lemma SortedHeadsAgree(collection: seq<Incident>, field: string, descending: bool, byId: bool,
                         a: seq<Incident>, b: seq<Incident>)
    requires NoTies(collection, field, byId)
    requires a != [] && multiset(a) == multiset(b) && multiset(a) <= multiset(collection)
    requires SortedWith(a, field, descending, byId) && SortedWith(b, field, descending, byId)
    ensures b != [] && a[0] == b[0]
  {
    assert a[0] in multiset(b);
    var k :| 0 <= k < |b| && b[k] == a[0];
    assert b[0] in multiset(a);
    var m :| 0 <= m < |a| && a[m] == b[0];
    if k != 0 && m != 0 {
      assert Before(b[0], a[0], field, descending, byId);
      assert Before(a[0], b[0], field, descending, byId);
      assert a[0] in multiset(collection) && b[0] in multiset(collection);
      MutualBeforeSame(collection, field, descending, byId, a[0], b[0]);
    }
  }

  lemma SameTails<T>(a: seq<T>, b: seq<T>)
    requires a != [] && b != [] && a[0] == b[0] && multiset(a) == multiset(b)
    ensures multiset(a[1..]) == multiset(b[1..]) && multiset(a[1..]) <= multiset(a)
    ensures a == [a[0]] + a[1..] && b == [b[0]] + b[1..]
  {
    assert a == [a[0]] + a[1..] && b == [b[0]] + b[1..];
    assert multiset(a) == multiset([a[0]]) + multiset(a[1..]);
    assert multiset(b) == multiset([b[0]]) + multiset(b[1..]);
    assert multiset(a[1..]) == multiset(a) - multiset{a[0]};
    assert multiset(b[1..]) == multiset(b) - multiset{b[0]};
  }

  lemma SortedTail(s: seq<Incident>, field: string, descending: bool, byId: bool)
    requires s != [] && SortedWith(s, field, descending, byId)
    ensures SortedWith(s[1..], field, descending, byId)
  {
    forall i, j | 0 <= i < j < |s[1..]| ensures Before(s[1..][i], s[1..][j], field, descending, byId) {
      assert s[1..][i] == s[i + 1] && s[1..][j] == s[j + 1];
    }
  }

  /**
   * Without ties the order is unique: two sorted arrangements of the same records of such a
   * collection are equal.
   */
  lemma {:induction false} SortedUnique(collection: seq<Incident>, field: string, descending: bool, byId: bool,
                                        a: seq<Incident>, b: seq<Incident>)
    requires NoTies(collection, field, byId)
    requires multiset(a) == multiset(b) && multiset(a) <= multiset(collection)
    requires SortedWith(a, field, descending, byId) && SortedWith(b, field, descending, byId)
    ensures a == b
  {
    if a == [] {
      assert |b| == |multiset(b)| == 0;
    } else {
      SortedHeadsAgree(collection, field, descending, byId, a, b);
      SameTails(a, b);
      SortedTail(a, field, descending, byId);
      SortedTail(b, field, descending, byId);
      SortedUnique(collection, field, descending, byId, a[1..], b[1..]);
    }
  }

  /** An order of the `_id`-tie-broken sort is also an order the sort by `field` alone may give. */
  lemma TieBrokenIsSortedView(collection: seq<Incident>, field: string, descending: bool, view: seq<Incident>)
    requires multiset(view) == multiset(collection) && SortedWith(view, field, descending, true)
    ensures IsSortedView(collection, field, descending, view)
  {
  }

  /** Without ties, the order the database returns for a sort request is determined. */
  lemma SortedViewUnique(collection: seq<Incident>, field: string, descending: bool, v: seq<Incident>, w: seq<Incident>)
    requires NoTies(collection, field, false)
    requires IsSortedView(collection, field, descending, v) && IsSortedView(collection, field, descending, w)
    ensures v == w
  {
    SortedUnique(collection, field, descending, false, v, w);
  }

  /** `skip` then `limit`: the records of `view` at positions [skip, skip + limit). */
  function Window(view: seq<Incident>, skip: nat, limit: nat): (r: seq<Incident>)
    ensures |r| <= limit
    ensures skip <= |view| ==> |r| == if skip + limit <= |view| then limit else |view| - skip
    ensures forall k :: 0 <= k < |r| ==> skip + k < |view| && r[k] == view[skip + k]
  {
    var from := if skip < |view| then skip else |view|;
    var to := if skip + limit < |view| then skip + limit else |view|;
    view[from..to]
  }

  /** A window of a sorted order is itself sorted. */
  lemma WindowSorted(view: seq<Incident>, skip: nat, limit: nat, field: string, descending: bool)
    requires SortedBy(view, field, descending)
    ensures SortedBy(Window(view, skip, limit), field, descending)
  {
    var r := Window(view, skip, limit);
    forall i, j | 0 <= i < j < |r| ensures InOrder(r[i], r[j], field, descending) {
      assert r[i] == view[skip + i] && r[j] == view[skip + j];
    }
  }

  /** Sorting by priority compares the stored names, so ascending order is high, low, medium. */
  lemma PriorityOrderIsByName(x: Incident, y: Incident, z: Incident)
    requires x.priority == High && y.priority == Low && z.priority == Medium
    ensures InOrder(x, y, "priority", false) && !InOrder(y, x, "priority", false)
    ensures InOrder(y, z, "priority", false) && !InOrder(z, y, "priority", false)
  {
    assert StrLe("high", "low") && !StrLe("low", "high");
    assert StrLe("low", "medium") && !StrLe("medium", "low");
  }
}
