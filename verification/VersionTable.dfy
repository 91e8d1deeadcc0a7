/**
 The key tables (configure/secretimpl/ddl_pg.sql): a serial id, a unique index on name and version, and rotation that
 inserts the next version and retires the older ones in one commit.
 */
module VersionTable {
  import opened Wrappers
  import Decimal

  datatype Row<T> = Row(name: string, version: int, active: bool, body: T)

  type Rows<T> = map<int, Row<T>>

  datatype Table<T> = Table(rows: Rows<T>, next: int)

  // ----- queries

  function Versions<T>(rows: Rows<T>, name: string): (vs: set<int>)
    ensures forall id :: id in rows && rows[id].name == name ==> rows[id].version in vs
  {
    set id | id in rows && rows[id].name == name :: rows[id].version
  }

  lemma {:induction false} MaxExists(s: set<int>)
    requires s != {}
    ensures exists m :: m in s && forall x :: x in s ==> x <= m
  {
    var x := Element(s);
    var rest := s - {x};
    if rest == {} {
      assert s == {x};
    } else {
      MaxExists(rest);
      var m :| m in rest && forall y :: y in rest ==> y <= m;
      var top := if x > m then x else m;
      assert top in s && forall y :: y in s ==> y in rest || y == x;
    }
  }

  /** select max(key_version), with 0 when there is none. */
  function MaxVersion<T>(rows: Rows<T>, name: string): (m: int)
    ensures Versions(rows, name) == {} ==> m == 0
    ensures Versions(rows, name) != {} ==> m in Versions(rows, name)
    ensures forall v :: v in Versions(rows, name) ==> v <= m
  {
    var vs := Versions(rows, name);
    if vs == {} then 0
    else
      MaxExists(vs);
      var m :| m in vs && forall x :: x in vs ==> x <= m;
      m
  }

  /** Status 0, highest version first, the first row. */
  predicate IsActiveTop<T>(rows: Rows<T>, name: string, id: int) {
    && id in rows && rows[id].name == name && rows[id].active
    && forall b :: b in rows && rows[b].name == name && rows[b].active ==> rows[b].version <= rows[id].version
  }

  // ----- writing

  /** A serial id is left and the unique index allows the row. */
  predicate CanInsert<T>(t: Table<T>, name: string, version: int) {
    t.next <= Decimal.MAX_INT64 && version !in Versions(t.rows, name)
  }

  function Insert<T>(t: Table<T>, name: string, version: int, body: T): Table<T> {
    Table(t.rows[t.next := Row(name, version, true, body)], t.next + 1)
  }

  /** The serial id of a refused insert is gone all the same. */
  function Refuse<T>(t: Table<T>): Table<T> {
    if t.next <= Decimal.MAX_INT64 then t.(next := t.next + 1) else t
  }

  function Retire<T>(t: Table<T>, name: string, version: int): Table<T> {
    t.(rows := map id | id in t.rows ::
         if t.rows[id].name == name && t.rows[id].version < version then t.rows[id].(active := false) else t.rows[id])
  }

  function Rotate<T>(t: Table<T>, name: string, version: int, body: T): Table<T> {
    Retire(Insert(t, name, version, body), name, version)
  }

  // ----- the invariant

  predicate IdsOk<T>(t: Table<T>) {
    t.next >= 1 && forall id :: id in t.rows ==> 1 <= id < t.next && 1 <= t.rows[id].version <= id <= Decimal.MAX_INT64
  }

  predicate VersionsUnique<T>(rows: Rows<T>) {
    forall a, b :: a in rows && b in rows && a != b && rows[a].name == rows[b].name ==> rows[a].version != rows[b].version
  }

  ghost predicate NoGap<T>(rows: Rows<T>) {
    forall name: string, v: int {:trigger v in Versions(rows, name)} ::
      1 <= v <= MaxVersion(rows, name) ==> v in Versions(rows, name)
  }

  predicate NewestActive<T>(rows: Rows<T>) {
    forall id :: id in rows ==> (rows[id].active <==> rows[id].version == MaxVersion(rows, rows[id].name))
  }

  ghost predicate TableOk<T>(t: Table<T>) {
    IdsOk(t) && VersionsUnique(t.rows) && NoGap(t.rows) && NewestActive(t.rows)
  }

  /** The versions of a name are 1..n without a gap, each on one row, and exactly the row with version n is active. */
  lemma VersionsAreDense<T>(t: Table<T>, name: string)
    requires TableOk(t)
    ensures forall v :: v in Versions(t.rows, name) <==> 1 <= v <= MaxVersion(t.rows, name)
    ensures forall id :: id in t.rows && t.rows[id].name == name ==>
      (t.rows[id].active <==> t.rows[id].version == MaxVersion(t.rows, name))
    ensures forall a, b :: a in t.rows && b in t.rows && a != b && t.rows[a].name == t.rows[b].name == name ==>
      t.rows[a].version != t.rows[b].version
  {
    forall v | v in Versions(t.rows, name) ensures 1 <= v <= MaxVersion(t.rows, name) {
      var id :| id in t.rows && t.rows[id].name == name && t.rows[id].version == v;
    }
  }

  lemma ActiveTopIs<T>(t: Table<T>, name: string, id: int)
    requires TableOk(t)
    ensures IsActiveTop(t.rows, name, id) <==>
      id in t.rows && t.rows[id].name == name && t.rows[id].version == MaxVersion(t.rows, name)
  {
  }

  // ----- rotation

  /** A plan made on an old version number only succeeds when nobody rotated in between. */
  lemma InsertIsNext<T>(t: Table<T>, name: string, seen: int)
    requires TableOk(t) && 0 <= seen <= MaxVersion(t.rows, name) && CanInsert(t, name, seen + 1)
    ensures seen == MaxVersion(t.rows, name)
  {
    assert seen < MaxVersion(t.rows, name) ==> seen + 1 in Versions(t.rows, name);
  }

  lemma VersionsAfter<T>(t: Table<T>, name: string, version: int, body: T, n: string)
    requires IdsOk(t)
    ensures Versions(Rotate(t, name, version, body).rows, n)
      == Versions(t.rows, n) + if n == name then {version} else {}
  {
    var now := Rotate(t, name, version, body).rows;
    forall v | v in Versions(t.rows, n) ensures v in Versions(now, n) {
      var id :| id in t.rows && t.rows[id].name == n && t.rows[id].version == v;
      assert now[id].name == n && now[id].version == v;
    }
    assert now[t.next].name == name && now[t.next].version == version;
    forall v | v in Versions(now, n) ensures v in Versions(t.rows, n) || (n == name && v == version) {
      var id :| id in now && now[id].name == n && now[id].version == v;
      if id != t.next {
        assert t.rows[id].name == n && t.rows[id].version == v;
      }
    }
  }

  lemma MaxAfter<T>(t: Table<T>, name: string, version: int, body: T, n: string)
    requires IdsOk(t) && version == MaxVersion(t.rows, name) + 1
    ensures MaxVersion(Rotate(t, name, version, body).rows, n) == if n == name then version else MaxVersion(t.rows, n)
  {
    VersionsAfter(t, name, version, body, n);
  }

  lemma RotateNoGap<T>(t: Table<T>, name: string, version: int, body: T)
    requires IdsOk(t) && NoGap(t.rows) && version == MaxVersion(t.rows, name) + 1
    ensures NoGap(Rotate(t, name, version, body).rows)
  {
    var now := Rotate(t, name, version, body).rows;
    forall n: string, v: int | 1 <= v <= MaxVersion(now, n) ensures v in Versions(now, n) {
      MaxAfter(t, name, version, body, n);
      VersionsAfter(t, name, version, body, n);
      assert v <= MaxVersion(t.rows, n) ==> v in Versions(t.rows, n);
    }
  }

  lemma RotateNewest<T>(t: Table<T>, name: string, version: int, body: T)
    requires IdsOk(t) && NewestActive(t.rows) && version == MaxVersion(t.rows, name) + 1
    ensures NewestActive(Rotate(t, name, version, body).rows)
  {
    var now := Rotate(t, name, version, body).rows;
    forall id | id in now ensures now[id].active <==> now[id].version == MaxVersion(now, now[id].name) {
      MaxAfter(t, name, version, body, now[id].name);
      if id != t.next {
        assert t.rows[id].version in Versions(t.rows, t.rows[id].name);
      }
    }
  }

  lemma RotateUnique<T>(t: Table<T>, name: string, version: int, body: T)
    requires IdsOk(t) && VersionsUnique(t.rows) && version == MaxVersion(t.rows, name) + 1
    ensures VersionsUnique(Rotate(t, name, version, body).rows)
  {
    var now := Rotate(t, name, version, body).rows;
    forall id | id in t.rows && t.rows[id].name == name ensures now[id].version < version {
      assert t.rows[id].version in Versions(t.rows, name);
    }
  }

  /** Versions never outrun the serial ids. */
  lemma VersionFits<T>(t: Table<T>, name: string)
    requires IdsOk(t)
    ensures 0 <= MaxVersion(t.rows, name) < t.next
  {
    var m := MaxVersion(t.rows, name);
    if Versions(t.rows, name) != {} {
      var id :| id in t.rows && t.rows[id].name == name && t.rows[id].version == m;
    }
  }

  lemma RotateKeepsOk<T>(t: Table<T>, name: string, version: int, body: T)
    requires TableOk(t) && t.next <= Decimal.MAX_INT64 && version == MaxVersion(t.rows, name) + 1
    ensures TableOk(Rotate(t, name, version, body))
  {
    RotateUnique(t, name, version, body);
    RotateNoGap(t, name, version, body);
    RotateNewest(t, name, version, body);
    VersionFits(t, name);
  }

  /** The first version has nothing to retire. */
  lemma FirstInsert<T>(t: Table<T>, name: string, body: T)
    requires IdsOk(t)
    ensures Insert(t, name, 1, body) == Rotate(t, name, 1, body)
  {
    var inserted := Insert(t, name, 1, body).rows;
    var retired := Rotate(t, name, 1, body).rows;
    forall id | id in inserted ensures id in retired && retired[id] == inserted[id] {
      assert id in t.rows ==> t.rows[id].version >= 1;
    }
    assert inserted == retired;
  }

  /** now is was with one more row; only statuses of other rows may differ. */
  predicate Adds<T(==)>(was: Rows<T>, id: int, row: Row<T>, now: Rows<T>) {
    && id !in was && now.Keys == was.Keys + {id} && now[id] == row
    && (forall o :: o in was ==>
          o in now && now[o].name == was[o].name && now[o].version == was[o].version && now[o].body == was[o].body)
  }

  lemma RotateAdds<T>(t: Table<T>, name: string, version: int, body: T)
    requires IdsOk(t)
    ensures Adds(t.rows, t.next, Row(name, version, true, body), Rotate(t, name, version, body).rows)
  {
  }

  // ----- rotations that overlap

  /** The rows of a name. */
  function NamedIds<T>(rows: Rows<T>, name: string): (ids: set<int>)
    ensures forall id :: id in ids <==> id in rows && rows[id].name == name
  {
    set id | id in rows && rows[id].name == name
  }

  /** Rows stay, under the same name and version; there may be more. */
  predicate RowsStay<T>(was: Rows<T>, now: Rows<T>) {
    forall id :: id in was ==> id in now && now[id].name == was[id].name && now[id].version == was[id].version
  }

  lemma RotateStays<T>(t: Table<T>, name: string, version: int, body: T)
    requires IdsOk(t)
    ensures RowsStay(t.rows, Rotate(t, name, version, body).rows)
  {
  }

  lemma NamedHasVersion<T>(rows: Rows<T>, name: string)
    ensures NamedIds(rows, name) == {} <==> Versions(rows, name) == {}
  {
    forall id | id in NamedIds(rows, name) ensures rows[id].version in Versions(rows, name) {
      assert id in rows && rows[id].name == name;
    }
    forall v | v in Versions(rows, name) ensures exists id :: id in NamedIds(rows, name) {
      var id :| id in rows && rows[id].name == name && rows[id].version == v;
      assert id in NamedIds(rows, name);
    }
  }

  lemma SameIdsSameVersions<T>(was: Rows<T>, now: Rows<T>, name: string)
    requires RowsStay(was, now) && NamedIds(was, name) == NamedIds(now, name)
    ensures Versions(was, name) == Versions(now, name)
  {
    forall v ensures v in Versions(was, name) <==> v in Versions(now, name) {
      if id :| id in was && was[id].name == name && was[id].version == v {
        assert now[id].version == v;
      }
      if id :| id in now && now[id].name == name && now[id].version == v {
        assert id in NamedIds(was, name);
      }
    }
  }

  /** A row that came since has a version above all there were then. */
  lemma NewRowIsAbove<T>(was: Table<T>, now: Table<T>, name: string, id: int)
    requires TableOk(was) && TableOk(now) && RowsStay(was.rows, now.rows)
    requires id in NamedIds(now.rows, name) - NamedIds(was.rows, name)
    ensures now.rows[id].version > MaxVersion(was.rows, name)
  {
    var v := now.rows[id].version;
    forall a | a in was.rows && was.rows[a].name == name ensures was.rows[a].version != v {
      assert a in now.rows && now.rows[a].version == was.rows[a].version;
    }
    assert v !in Versions(was.rows, name);
  }

  lemma NewId<T>(was: Rows<T>, now: Rows<T>, name: string) returns (id: int)
    requires RowsStay(was, now) && NamedIds(now, name) != NamedIds(was, name)
    ensures id in NamedIds(now, name) - NamedIds(was, name)
  {
    var a, b := NamedIds(was, name), NamedIds(now, name);
    forall o | o in a ensures o in b {
      assert o in was && o in now;
    }
    assert b == a + (b - a);
    id := Element(b - a);
  }

  /** The next version after the highest that was read is let in if and only if a serial id is left and no row of the
      name was added since. */
  lemma NextIsLetInIff<T>(was: Table<T>, now: Table<T>, name: string)
    requires TableOk(was) && TableOk(now) && RowsStay(was.rows, now.rows)
    ensures CanInsert(now, name, MaxVersion(was.rows, name) + 1) <==>
      now.next <= Decimal.MAX_INT64 && NamedIds(now.rows, name) == NamedIds(was.rows, name)
  {
    if NamedIds(now.rows, name) == NamedIds(was.rows, name) {
      SameIdsSameVersions(was.rows, now.rows, name);
    } else {
      var id := NewId(was.rows, now.rows, name);
      NewRowIsAbove(was, now, name, id);
      VersionFits(was, name);
      assert now.rows[id].version in Versions(now.rows, name);
      assert MaxVersion(was.rows, name) + 1 in Versions(now.rows, name);
    }
  }
}
