/** The list of an entity's overlays for a caller of one system: the query takes two rows,
    in the order of systems, before the caller's own is looked for among them. */
module OverlayList {
  import opened Text

  datatype Overlay = Overlay(id: nat, entity: nat, system: nat)

  /** No system has two overlays of one entity. */
  predicate OneEach(table: set<Overlay>) {
    forall a, b :: a in table && b in table && a.entity == b.entity && a.system == b.system ==> a == b
  }

  /** The rows of an entity, ordered by system. */
  ghost predicate RowsOf(table: set<Overlay>, entity: nat, rows: seq<Overlay>) {
    && (forall o :: o in rows <==> o in table && o.entity == entity)
    && forall i, j :: 0 <= i < j < |rows| ==> rows[i].system < rows[j].system
  }

  /** The query with a limit, from the first row on. */
  function Limited(rows: seq<Overlay>, limit: nat): seq<Overlay> {
    if |rows| <= limit then rows else rows[..limit]
  }

  /** The rows of a system, in order. */
  function OfSystem(rows: seq<Overlay>, system: nat): seq<Overlay> {
    if rows == [] then []
    else
      var n := |rows| - 1;
      OfSystem(rows[..n], system) + if rows[n].system == system then [rows[n]] else []
  }

  /** `ListByEntity` for a caller of a system. */
  method ListByEntity(rows: seq<Overlay>, caller: nat) returns (items: seq<Overlay>)
    ensures items == OfSystem(Limited(rows, 2), caller)
  {
    var all := Limited(rows, 2);
    items := [];
    for i := 0 to |all|
      invariant items == OfSystem(all[..i], caller)
    {
      assert all[..i + 1][..i] == all[..i];
      if all[i].system == caller {
        items := items + [all[i]];
      }
    }
    assert all[..|all|] == all;
  }

  lemma {:induction false} OfSystemHas(rows: seq<Overlay>, system: nat, o: Overlay)
    ensures o in OfSystem(rows, system) <==> o in rows && o.system == system
  {
    if rows != [] {
      var n := |rows| - 1;
      OfSystemHas(rows[..n], system, o);
      assert rows == rows[..n] + [rows[n]];
    }
  }

  /** The overlays of the entity for smaller systems. */
  function Smaller(table: set<Overlay>, entity: nat, system: nat): set<Overlay> {
    set o | o in table && o.entity == entity && o.system < system
  }

  function Elements(rows: seq<Overlay>): set<Overlay> {
    set o | o in rows
  }

  lemma {:induction false} FirstRows(rows: seq<Overlay>, k: nat)
    requires k <= |rows| && forall i, j :: 0 <= i < j < |rows| ==> rows[i].system < rows[j].system
    ensures |Elements(rows[..k])| == k
  {
    if k > 0 {
      FirstRows(rows, k - 1);
      assert rows[..k] == rows[..k - 1] + [rows[k - 1]];
      assert Elements(rows[..k]) == Elements(rows[..k - 1]) + {rows[k - 1]};
      assert rows[k - 1] !in rows[..k - 1];
    }
  }

  /** A row's place is the number of rows for smaller systems. */
  lemma PlaceIs(table: set<Overlay>, entity: nat, rows: seq<Overlay>, k: nat)
    requires RowsOf(table, entity, rows) && k < |rows|
    ensures |Smaller(table, entity, rows[k].system)| == k
  {
    FirstRows(rows, k);
    forall o
      ensures o in Smaller(table, entity, rows[k].system) <==> o in rows[..k]
    {
      if o in Smaller(table, entity, rows[k].system) {
        var i :| 0 <= i < |rows| && rows[i] == o;
        assert i < k;
        assert rows[..k][i] == o;
      }
      if o in rows[..k] {
        var i :| 0 <= i < k && rows[..k][i] == o;
        assert rows[i] == o;
      }
    }
    assert Smaller(table, entity, rows[k].system) == Elements(rows[..k]);
  }

  /** The caller is shown its own overlay exactly if fewer than two systems before its own
      have one. */
  lemma ShownExactly(table: set<Overlay>, entity: nat, rows: seq<Overlay>, caller: nat, own: Overlay)
    requires RowsOf(table, entity, rows) && own in table && own.entity == entity && own.system == caller
    ensures own in OfSystem(Limited(rows, 2), caller) <==> |Smaller(table, entity, caller)| < 2
  {
    var k :| 0 <= k < |rows| && rows[k] == own;
    PlaceIs(table, entity, rows, k);
    OfSystemHas(Limited(rows, 2), caller, own);
    if k < 2 {
      assert Limited(rows, 2)[k] == own;
    }
    if own in Limited(rows, 2) {
      var i :| 0 <= i < |Limited(rows, 2)| && Limited(rows, 2)[i] == own;
      assert rows[i] == own;
    }
  }

  /** Nothing else is shown. */
  lemma NothingElse(table: set<Overlay>, entity: nat, rows: seq<Overlay>, caller: nat, o: Overlay)
    requires RowsOf(table, entity, rows) && o in OfSystem(Limited(rows, 2), caller)
    ensures o in table && o.entity == entity && o.system == caller
  {
    OfSystemHas(Limited(rows, 2), caller, o);
    assert o in rows;
  }

  /** With overlays of three systems the third one is not shown its own. */
  lemma ThirdIsMissing()
    ensures var rows := [Overlay(0, 7, 1), Overlay(1, 7, 2), Overlay(2, 7, 3)];
            var table := Elements(rows);
            OneEach(table) && RowsOf(table, 7, rows) && rows[2] in table && OfSystem(Limited(rows, 2), 3) == []
  {
    var rows := [Overlay(0, 7, 1), Overlay(1, 7, 2), Overlay(2, 7, 3)];
    var all := Limited(rows, 2);
    assert all == [rows[0], rows[1]] && all[..1] == [rows[0]] && all[..1][..0] == [];
    assert OfSystem(all[..1], 3) == [];
  }
}
