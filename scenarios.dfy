/**
 * Worked requests against a small store: a first search that builds a
 * place and inserts its category, the same search repeated, and a batch that
 * repeats a new result.
 */
module Scenarios {
  import opened Wrappers
  import opened Models
  import opened Reconcile
  import opened BatchFacts

  /** An upstream result with every member present. */
  function Cafe(fsqId: string): Item {
    Item(Present(fsqId), Present("Cafe"),
         Present(Location(Present("1 Main St"), Missing)),
         Present(Geocodes(Present(Coordinates(Present(1.0), Present(2.0))))),
         Present(8.5),
         Present([CategoryEntry(Present("Coffee")), CategoryEntry(Present("Bakery"))]))
  }

  /** The row the first search stores for `Cafe("A1")`, with its key. */
  function CafeRow(): Place {
    Place(1, PlaceFields("A1", Some("Cafe"), Some("1 Main St"), Some(1.0), Some(2.0), Some(1), Some(8.5)))
  }

  /** The store after the first search. */
  function AfterFirstSearch(): Db {
    Db(map["Coffee" := 1], [CafeRow()], 2, 2)
  }

  /** The empty store. */
  function Empty(): Db {
    Db(map[], [], 1, 1)
  }

  /** The keys the first loop collects from one `Cafe` result. */
  lemma CafeKeys(fsqId: string)
    requires fsqId != ""
    ensures CollectIds([Cafe(fsqId)]) == [fsqId]
    ensures CollectNames([Cafe(fsqId)]) == {"Coffee"}
  {
    var s := [Cafe(fsqId)];
    assert s[..0] == [];
  }

  /** The place built from `Cafe("A1")` when "Coffee" has id 1. */
  lemma CafeBuilds()
    ensures BuildAll([Cafe("A1")], map["Coffee" := 1]) == Some([CafeRow().fields])
  {
    var s := [Cafe("A1")];
    var known := map["Coffee" := 1];
    assert s[..0] == [];
    assert BuildPlace(Cafe("A1"), known) == Some(CafeRow().fields);
    assert BuildAll(s[..0], known) == Some([]);
    assert [] + [CafeRow().fields] == [CafeRow().fields];
  }

  /** A store without rows has no stored external id and no stored category among any keys. */
  lemma NoRowsNoSnapshot(db: Db, ids: seq<string>, names: set<string>)
    requires db.categories == map[] && db.places == []
    ensures ExistingFsqIds(db, ids) == {}
    ensures KnownCategories(db, names) == map[]
    ensures names - db.categories.Keys == names
  {
  }

  /**
   * On the empty store a search returning one new result inserts its first
   * category, which the database numbers 1, and builds one place referring
   * to that category.
   */
  lemma FirstSearchPlan(s: seq<Item>, newIds: map<string, int>)
    requires s == [Cafe("A1")] && newIds == map["Coffee" := 1]
    ensures FreshIds(Empty(), CollectNames(s), newIds)
    ensures Planned(Empty(), s, newIds) == Some([CafeRow().fields])
  {
    CafeKeys("A1");
    NoRowsNoSnapshot(Empty(), ["A1"], {"Coffee"});
    assert map[] + newIds == newIds;
    assert NewItems(s, {}) == s by {
      assert s[..0] == [];
    }
    CafeBuilds();
  }

  /** Repeating the search creates nothing and leaves the store as it was. */
  lemma RepeatedSearchStoresNothing()
    ensures Admissible(AfterFirstSearch(), Body(Present([Cafe("A1")])), map[])
    ensures Handle(AfterFirstSearch(), Body(Present([Cafe("A1")])), map[])
      == Outcome(Created([]), AfterFirstSearch())
  {
    var s := [Cafe("A1")];
    CafeKeys("A1");
    assert s[..0] == [];
    assert CafeRow() in AfterFirstSearch().places;
    assert ExistingFsqIds(AfterFirstSearch(), ["A1"]) == {"A1"};
    assert NewItems(s, {"A1"}) == [];
  }

  /**
   * A batch that returns the same new, well-formed result twice is rejected
   * at the commit and stores nothing, not even its category.
   */
  lemma RepeatedIdStoresNothing(db: Db, x: Item, newIds: map<string, int>)
    requires IsNew(x, StoredFsqIds(db)) && WellFormed(x)
    ensures Handle(db, Body(Present([x, x])), newIds) == Outcome(Failed(DuplicateFsqId), db)
  {
    var s := [x, x];
    assert IsNew(s[0], StoredFsqIds(db)) && FsqIdOf(s[1]) == FsqIdOf(s[0]);
    DuplicateIff(db, s, newIds);
  }
}
