/** The migration runner of migration.js: the `migrations` table records the name of every applied
    migration once; a run reads the recorded names, then applies, in list order, each migration not
    among them, each in its own transaction, and stops at the first one that fails. */
module Migration {
  import opened Optional
  import opened Tables

  /** How a run ends: every migration applied, or stopped at the named one. */
  datatype RunOutcome = Done | Failed(name: string)

  /** `MIGRATIONS`, each known by its name. */
  const MIGRATIONS: seq<string> := ["001-initial-schema-and-seed"]

  predicate NoDup(names: seq<string>) {
    forall i, j :: 0 <= i < j < |names| ==> names[i] != names[j]
  }

  function Names(table: seq<string>): set<string> {
    set n | n in table
  }

  /** The names of `list`, in order, that were not recorded when the run began. */
  function Unapplied(list: seq<string>, snapshot: set<string>): (r: seq<string>)
    ensures forall n :: n in r <==> n in list && n !in snapshot
    decreases |list|
  {
    if list == [] then []
    else if list[0] in snapshot then Unapplied(list[1..], snapshot)
    else [list[0]] + Unapplied(list[1..], snapshot)
  }

  /** Each pending name occurs as many times as the list holds it, and no recorded name occurs. */
  lemma {:induction false} UnappliedCounts(list: seq<string>, snapshot: set<string>)
    ensures forall n :: multiset(Unapplied(list, snapshot))[n] == (if n in snapshot then 0 else multiset(list)[n])
    decreases |list|
  {
    if list != [] {
      assert list == [list[0]] + list[1..];
      UnappliedCounts(list[1..], snapshot);
    }
  }

  /** The pending migrations keep the list's order: those of a prefix come before those of the rest. */
  lemma {:induction false} UnappliedKeepsOrder(front: seq<string>, back: seq<string>, snapshot: set<string>)
    ensures Unapplied(front + back, snapshot) == Unapplied(front, snapshot) + Unapplied(back, snapshot)
    decreases |front|
  {
    if front != [] {
      var whole := front + back;
      assert whole[0] == front[0] && whole[1..] == front[1..] + back;
      UnappliedKeepsOrder(front[1..], back, snapshot);
    } else {
      assert front + back == back;
    }
  }

  /** The `migrations` table after a run over `list` that began with the names `snapshot` recorded;
      `failing` holds the migrations whose `up` throws. A name already recorded during this run (a
      duplicate in the list) breaks the UNIQUE column, which fails that migration too. */
  function Run(table: seq<string>, snapshot: set<string>, list: seq<string>, failing: set<string>)
    : (out: (seq<string>, RunOutcome))
    decreases |list|
  {
    if list == [] then (table, Done)
    else if list[0] in snapshot then Run(table, snapshot, list[1..], failing)
    else if list[0] in failing || list[0] in table then (table, Failed(list[0]))
    else Run(table + [list[0]], snapshot, list[1..], failing)
  }

  /** A run never records a name twice. */
  lemma {:induction false} RunKeepsNamesUnique(table: seq<string>, snapshot: set<string>, list: seq<string>, failing: set<string>)
    requires NoDup(table)
    ensures NoDup(Run(table, snapshot, list, failing).0)
    decreases |list|
  {
    if list != [] && list[0] !in snapshot && list[0] !in failing && list[0] !in table {
      RunKeepsNamesUnique(table + [list[0]], snapshot, list[1..], failing);
    } else if list != [] && list[0] in snapshot {
      RunKeepsNamesUnique(table, snapshot, list[1..], failing);
    }
  }

  /** A run that completes has appended every unapplied migration, in list order, and nothing else. */
  lemma {:induction false} CompletedRunAppliesAllPending(table: seq<string>, snapshot: set<string>, list: seq<string>, failing: set<string>)
    requires Run(table, snapshot, list, failing).1 == Done
    ensures Run(table, snapshot, list, failing).0 == table + Unapplied(list, snapshot)
    decreases |list|
  {
    if list != [] {
      if list[0] in snapshot {
        CompletedRunAppliesAllPending(table, snapshot, list[1..], failing);
      } else {
        CompletedRunAppliesAllPending(table + [list[0]], snapshot, list[1..], failing);
        assert table + [list[0]] + Unapplied(list[1..], snapshot) == table + ([list[0]] + Unapplied(list[1..], snapshot));
      }
    }
  }

  lemma {:induction false} FailedRunStopsAt(table: seq<string>, snapshot: set<string>, list: seq<string>, failing: set<string>)
    returns (i: nat)
    requires Run(table, snapshot, list, failing).1.Failed?
    ensures i < |list| && list[i] == Run(table, snapshot, list, failing).1.name && list[i] !in snapshot
    ensures Run(table, snapshot, list, failing).0 == table + Unapplied(list[..i], snapshot)
    decreases |list|
  {
    if list[0] in snapshot {
      var j := FailedRunStopsAt(table, snapshot, list[1..], failing);
      assert list[..j + 1] == [list[0]] + list[1..][..j];
      i := j + 1;
    } else if list[0] !in failing && list[0] !in table {
      var j := FailedRunStopsAt(table + [list[0]], snapshot, list[1..], failing);
      assert list[..j + 1] == [list[0]] + list[1..][..j];
      assert table + [list[0]] + Unapplied(list[1..][..j], snapshot) == table + ([list[0]] + Unapplied(list[1..][..j], snapshot));
      i := j + 1;
    } else {
      assert list[..0] == [];
      i := 0;
    }
  }

  /** A run that fails stops at an unapplied migration `list[i]`: the table then holds exactly the
      unapplied migrations before it, so no later one was attempted. */
  lemma FailedRunStops(table: seq<string>, snapshot: set<string>, list: seq<string>, failing: set<string>)
    requires Run(table, snapshot, list, failing).1.Failed?
    ensures exists i ::
      && 0 <= i < |list|
      && list[i] == Run(table, snapshot, list, failing).1.name
      && list[i] !in snapshot
      && Run(table, snapshot, list, failing).0 == table + Unapplied(list[..i], snapshot)
  {
    var i := FailedRunStopsAt(table, snapshot, list, failing);
  }

  /** With a list free of duplicates, the migration a run stops at is left unrecorded (its
      transaction is rolled back) unless it was recorded before the run. */
  lemma FailedMigrationIsNotRecorded(table: seq<string>, list: seq<string>, failing: set<string>)
    requires NoDup(list)
    requires Run(table, Names(table), list, failing).1.Failed?
    ensures Run(table, Names(table), list, failing).1.name !in Run(table, Names(table), list, failing).0
  {
    var i := FailedRunStopsAt(table, Names(table), list, failing);
    assert list[i] !in list[..i];
  }

  /** A run in which every migration was already recorded changes nothing and completes. */
  lemma {:induction false} NothingPendingIsNoOp(table: seq<string>, snapshot: set<string>, list: seq<string>, failing: set<string>)
    requires forall n :: n in list ==> n in snapshot
    ensures Run(table, snapshot, list, failing) == (table, Done)
    decreases |list|
  {
    if list != [] {
      assert forall n :: n in list[1..] ==> n in list;
      NothingPendingIsNoOp(table, snapshot, list[1..], failing);
    }
  }

  /** Running again after a completed run applies nothing, whatever would fail this time. */
  lemma SecondRunIsNoOp(table: seq<string>, list: seq<string>, failing: set<string>, failingLater: set<string>)
    requires Run(table, Names(table), list, failing).1 == Done
    ensures var after := Run(table, Names(table), list, failing).0;
      Run(after, Names(after), list, failingLater) == (after, Done)
  {
    var after := Run(table, Names(table), list, failing).0;
    CompletedRunAppliesAllPending(table, Names(table), list, failing);
    forall n | n in list ensures n in Names(after) {
      if n !in Names(table) {
        assert n in Unapplied(list, Names(table));
      }
    }
    NothingPendingIsNoOp(after, Names(after), list, failingLater);
  }

  /** The `migrations` table. */
  class MigrationDb {
    var applied: seq<string>

    /** The UNIQUE constraint on `name`. */
    ghost predicate Valid()
      reads this
    {
      NoDup(applied)
    }

    constructor ()
      ensures Valid() && applied == []
    {
      applied := [];
    }

    /** `migrate`: read the recorded names once, then walk the list. */
    method Migrate(list: seq<string>, failing: set<string>) returns (outcome: RunOutcome)
      requires Valid()
      modifies this
      ensures Valid()
      ensures (applied, outcome) == Run(old(applied), Names(old(applied)), list, failing)
    {
      var snapshot := set n | n in applied;
      var i := 0;
      while i < |list|
        invariant 0 <= i <= |list|
        invariant Run(old(applied), snapshot, list, failing) == Run(applied, snapshot, list[i..], failing)
        invariant NoDup(applied)
      {
        var name := list[i];
        assert list[i..][0] == name && list[i..][1..] == list[i + 1..];
        if name !in snapshot {
          if name in failing || name in applied {
            return Failed(name);   // ROLLBACK, and the error ends the run
          }
          applied := applied + [name];
        }
        i := i + 1;
      }
      outcome := Done;
    }
  }

  /** With nothing failing, a duplicate-free list of names none of which is recorded completes and
      records every name, in list order. */
  lemma {:induction false} CleanRunRecordsAll(table: seq<string>, list: seq<string>)
    requires NoDup(list)
    requires forall n :: n in list ==> n !in table
    ensures Run(table, {}, list, {}) == (table + list, Done)
    decreases |list|
  {
    if list == [] {
      assert table + list == table;
    } else {
      var rest := list[1..];
      assert forall n :: n in rest ==> n in list && n != list[0] by {
        forall n | n in rest ensures n in list && n != list[0] {
          var k :| 0 <= k < |rest| && rest[k] == n;
          assert list[k + 1] == n;
        }
      }
      CleanRunRecordsAll(table + [list[0]], rest);
      assert table + [list[0]] + rest == table + list;
    }
  }

  /** Migrating a fresh database twice with nothing failing: the first run completes and records
      `MIGRATIONS` once, the second completes and changes nothing. */
  method MigrateTwice(db: MigrationDb) returns (first: RunOutcome, second: RunOutcome)
    requires db.Valid() && db.applied == []
    modifies db
    ensures first == Done && second == Done && db.applied == MIGRATIONS
  {
    first := db.Migrate(MIGRATIONS, {});
    CleanRunRecordsAll([], MIGRATIONS);
    assert Names([]) == {};
    SecondRunIsNoOp([], MIGRATIONS, {}, {});
    second := db.Migrate(MIGRATIONS, {});
  }

  /** A seeded listing: the columns `001-initial-schema-and-seed` writes, with the number of image
      URLs in place of the URLs and no description text. */
  datatype SeedProduct = SeedProduct(
    id: Id, name: string, price: real, imageCount: nat, sellerId: Id,
    category: string, condition: string, createdAt: int, listingType: ListingType,
    startingPrice: Option<real>, currentBid: Option<real>, auctionEndDate: Option<int>)

  /** The seeded categories; the seed gives them no image. */
  function SeedCategories(): (cats: seq<Category>)
    ensures |cats| == 6
    ensures forall i, j :: 0 <= i < j < |cats| ==> cats[i].name != cats[j].name && cats[i].id != cats[j].id
    ensures forall c :: c in cats ==> c.imageUrl.None?
  {
    [Category("cat1", "Electronics", None), Category("cat2", "Fashion", None),
     Category("cat3", "Home & Garden", None), Category("cat4", "Sports & Outdoors", None),
     Category("cat5", "Books", None), Category("cat6", "Toys & Games", None)]
  }

  /** The names of the seeded categories. */
  function SeedCategoryNames(): (names: set<string>)
    ensures forall i :: 0 <= i < |SeedCategories()| ==> SeedCategories()[i].name in names
    ensures |names| == |SeedCategories()|
  {
    {"Electronics", "Fashion", "Home & Garden", "Sports & Outdoors", "Books", "Toys & Games"}
  }

  const DAY_MS: int := 24 * 60 * 60 * 1000

  /** `MOCK_PRODUCTS`, with `Date.now()` as `now`. */
  function MockProducts(now: int): (ps: seq<SeedProduct>)
    ensures |ps| == 8
    ensures forall i :: 0 <= i < |ps| ==> ps[i].id == [('1' as int + i) as char]
    ensures forall i :: 0 <= i < |ps| && ps[i].listingType == Auction ==>
      ps[i].currentBid.Some? && ps[i].currentBid == ps[i].startingPrice && ps[i].auctionEndDate == Some(now + 3 * DAY_MS)
    ensures forall i :: 0 <= i < |ps| && ps[i].listingType == FixedPrice ==>
      ps[i].currentBid.None? && ps[i].startingPrice.None? && ps[i].auctionEndDate.None?
    ensures forall i :: 0 <= i < |ps| ==> ps[i].createdAt < now && 1 <= ps[i].imageCount <= 3
  {
    [SeedProduct("1", "High-Performance Laptop", 1200.0, 3, "seller1", "Electronics", "New", now - 100000, FixedPrice, None, None, None),
     SeedProduct("2", "Stylish Running Shoes", 150.0, 1, "seller2", "Fashion", "New", now - 200000, FixedPrice, None, None, None),
     SeedProduct("3", "Modern Bookshelf", 250.0, 2, "seller1", "Home & Garden", "Used - Like New", now - 300000, FixedPrice, None, None, None),
     SeedProduct("4", "Professional Tennis Racket", 220.0, 1, "seller3", "Sports & Outdoors", "Used - Like New", now - 400000, FixedPrice, None, None, None),
     SeedProduct("5", "The Great Gatsby", 15.0, 1, "seller2", "Books", "New", now - 500000, FixedPrice, None, None, None),
     SeedProduct("6", "Smart VR Headset", 0.0, 3, "seller1", "Electronics", "Refurbished", now - 600000,
                 Auction, Some(300.0), Some(300.0), Some(now + 3 * DAY_MS)),
     SeedProduct("7", "Designer Leather Jacket", 750.0, 1, "seller3", "Fashion", "New", now - 700000, FixedPrice, None, None, None),
     SeedProduct("8", "Ergonomic Office Chair", 350.0, 2, "seller2", "Home & Garden", "Used - Like New", now - 800000, FixedPrice, None, None, None)]
  }

  /** The seeded listings have distinct ids, as the primary key demands. */
  lemma SeedIdsDistinct(now: int)
    ensures forall i, j :: 0 <= i < j < |MockProducts(now)| ==> MockProducts(now)[i].id != MockProducts(now)[j].id
  {
    var ps := MockProducts(now);
    forall i, j | 0 <= i < j < |ps| ensures ps[i].id != ps[j].id {
      assert ps[i].id[0] != ps[j].id[0];
    }
  }

  /** Every seeded listing is filed under a seeded category. */
  lemma SeedProductsUseSeedCategories(now: int)
    ensures forall p :: p in MockProducts(now) ==> p.category in SeedCategoryNames()
  {
    var ps := MockProducts(now);
    var names := SeedCategoryNames();
    forall i | 0 <= i < |ps| ensures ps[i].category in names {
      if i == 0 || i == 5 {
        assert ps[i].category == "Electronics";
      } else if i == 1 || i == 6 {
        assert ps[i].category == "Fashion";
      } else if i == 2 || i == 7 {
        assert ps[i].category == "Home & Garden";
      } else if i == 3 {
        assert ps[i].category == "Sports & Outdoors";
      } else {
        assert ps[i].category == "Books";
      }
    }
  }
}
