/**
 Tool discovery (cl/src/loader/local_tools.py, load_tools): entry points are met in some order;
 manifest 2.0 packages select capability ids, legacy tools have one name, and packages that
 collide with anything are removed whole and leave tombstones.
 */
module ToolDiscovery {
  import opened Common

  /** A valid entry point. */
  datatype Item = Package(path: string, ids: set<string>) | Legacy(path: string, name: string)

  /** None allows every name. */
  datatype Config = Config(internal: set<string>, blocked: set<string>, allowed: Option<set<string>>)

  datatype Tool = Tool(path: string, packaged: bool)

  predicate Admitted(cfg: Config, name: string) {
    name in cfg.internal || (name !in cfg.blocked && (cfg.allowed.None? || name in cfg.allowed.value))
  }

  /** Every entry point is a file of its own. */
  predicate DistinctFiles(items: seq<Item>) {
    forall i, j | 0 <= i < j < |items| :: items[i].path != items[j].path
  }

  ghost predicate OneFileEach(items: set<Item>) {
    forall p, q | p in items && q in items && p.path == q.path :: p == q
  }

  // ---- What survives, without order -------------------------------------------------

  predicate Claims(cfg: Config, it: Item, id: string) {
    match it
    case Package(_, ids) => id in ids
    case Legacy(_, name) => name == id && Admitted(cfg, name)
  }

  /** The package shares an id with the other entry point. */
  ghost predicate Clash(cfg: Config, p: Item, other: Item) {
    exists id :: Claims(cfg, p, id) && Claims(cfg, other, id)
  }

  ghost predicate Survives(cfg: Config, items: set<Item>, p: Item) {
    p.Package? && p in items && forall other | other in items && other != p :: !Clash(cfg, p, other)
  }

  /** A surviving package at this path selects the id. */
  ghost predicate FromPackage(cfg: Config, items: set<Item>, id: string, path: string) {
    exists p :: Survives(cfg, items, p) && id in p.ids && p.path == path
  }

  /** Some package selects the id. */
  ghost predicate Selected(items: set<Item>, id: string) {
    exists p :: p in items && p.Package? && id in p.ids
  }

  ghost predicate FromLegacy(cfg: Config, items: set<Item>, id: string) {
    !Selected(items, id) && exists t :: t in items && t.Legacy? && Claims(cfg, t, id)
  }

  /** Some package that did not survive selects the id. */
  ghost predicate Tombstoned(cfg: Config, items: set<Item>, id: string) {
    exists p :: p in items && p.Package? && id in p.ids && !Survives(cfg, items, p)
  }

  /** What the tables hold about one id. */
  ghost predicate Agrees(cfg: Config, items: set<Item>, loaded: map<string, Tool>, disabled: set<string>, id: string) {
    && (id in loaded && loaded[id].packaged ==> FromPackage(cfg, items, id, loaded[id].path))
    && (forall path | FromPackage(cfg, items, id, path) :: id in loaded && loaded[id] == Tool(path, true))
    && (id in loaded && !loaded[id].packaged <==> FromLegacy(cfg, items, id))
    && (id in disabled <==> Tombstoned(cfg, items, id))
  }

  ghost predicate AllAgree(cfg: Config, items: set<Item>, loaded: map<string, Tool>, disabled: set<string>) {
    forall id :: Agrees(cfg, items, loaded, disabled, id)
  }

  // ---- One more entry point ---------------------------------------------------------

  lemma SurvivesMore(cfg: Config, items: set<Item>, x: Item, p: Item)
    requires x !in items && p in items
    ensures Survives(cfg, items + {x}, p) <==> Survives(cfg, items, p) && !Clash(cfg, p, x)
  {
  }

  lemma SurvivesNew(cfg: Config, items: set<Item>, x: Item)
    requires x !in items && x.Package?
    ensures Survives(cfg, items + {x}, x) <==> forall other | other in items :: !Clash(cfg, x, other)
  {
  }

  /** Every id an entry point claims is in one of the tables. */
  lemma ClaimedIsKnown(cfg: Config, items: set<Item>, loaded: map<string, Tool>, disabled: set<string>, other: Item,
                       id: string)
    requires AllAgree(cfg, items, loaded, disabled) && other in items && Claims(cfg, other, id)
    ensures id in loaded || id in disabled
  {
    assert Agrees(cfg, items, loaded, disabled, id);
    if other.Package? {
      if Survives(cfg, items, other) { assert FromPackage(cfg, items, id, other.path); }
    } else if Selected(items, id) {
      var p :| p in items && p.Package? && id in p.ids;
      if Survives(cfg, items, p) { assert FromPackage(cfg, items, id, p.path); }
    }
  }

  lemma KnownIsClaimed(cfg: Config, items: set<Item>, loaded: map<string, Tool>, disabled: set<string>, id: string)
    requires AllAgree(cfg, items, loaded, disabled) && (id in loaded || id in disabled)
    ensures exists other :: other in items && Claims(cfg, other, id)
  {
    assert Agrees(cfg, items, loaded, disabled, id);
    if id in disabled {
      var p :| p in items && p.Package? && id in p.ids;
      assert Claims(cfg, p, id);
    } else if loaded[id].packaged {
      var p :| Survives(cfg, items, p) && id in p.ids;
      assert Claims(cfg, p, id);
    }
  }

  /** A package survives its arrival exactly when none of its ids is known. */
  lemma CollisionExact(cfg: Config, items: set<Item>, loaded: map<string, Tool>, disabled: set<string>, x: Item)
    requires AllAgree(cfg, items, loaded, disabled) && x !in items && x.Package?
    ensures Survives(cfg, items + {x}, x) <==> forall id | id in x.ids :: id !in loaded && id !in disabled
  {
    SurvivesNew(cfg, items, x);
    hide AllAgree;
    if id :| id in x.ids && (id in loaded || id in disabled) {
      KnownIsClaimed(cfg, items, loaded, disabled, id);
      var other :| other in items && Claims(cfg, other, id);
      assert Claims(cfg, x, id);
      assert Clash(cfg, x, other);
    }
    if other :| other in items && Clash(cfg, x, other) {
      var id :| Claims(cfg, x, id) && Claims(cfg, other, id);
      ClaimedIsKnown(cfg, items, loaded, disabled, other, id);
    }
  }

  // ---- A collision ------------------------------------------------------------------

  /** The claimed ids, and every loaded id of a package that holds one of them. */
  function Gone(loaded: map<string, Tool>, claimed: set<string>): set<string> {
    var origins := set id | id in claimed && id in loaded && loaded[id].packaged :: loaded[id].path;
    claimed + set id | id in loaded && loaded[id].packaged && loaded[id].path in origins
  }

  function ClaimedBy(x: Item): set<string> { if x.Package? then x.ids else {x.name} }

  ghost predicate Hit(cfg: Config, items: set<Item>, x: Item, id: string) {
    exists p :: Survives(cfg, items, p) && Clash(cfg, p, x) && id in p.ids
  }

  lemma SharedId(cfg: Config, items: set<Item>, loaded: map<string, Tool>, disabled: set<string>, p: Item, id: string)
    requires AllAgree(cfg, items, loaded, disabled) && Survives(cfg, items, p) && id in p.ids
    ensures id in loaded && loaded[id] == Tool(p.path, true) && id !in disabled
  {
    assert Agrees(cfg, items, loaded, disabled, id);
    assert FromPackage(cfg, items, id, p.path);
    if q :| q in items && q.Package? && id in q.ids && !Survives(cfg, items, q) {
      assert Claims(cfg, p, id) && Claims(cfg, q, id);
      assert Clash(cfg, p, q);
      assert false;
    }
  }

  lemma GoneExact(cfg: Config, items: set<Item>, loaded: map<string, Tool>, disabled: set<string>, x: Item, id: string)
    requires AllAgree(cfg, items, loaded, disabled) && OneFileEach(items) && (x.Legacy? ==> Admitted(cfg, x.name))
    ensures id in Gone(loaded, ClaimedBy(x)) <==> id in ClaimedBy(x) || Hit(cfg, items, x, id)
  {
    if Hit(cfg, items, x, id) {
      var p :| Survives(cfg, items, p) && Clash(cfg, p, x) && id in p.ids;
      var shared :| Claims(cfg, p, shared) && Claims(cfg, x, shared);
      SharedId(cfg, items, loaded, disabled, p, id);
      SharedId(cfg, items, loaded, disabled, p, shared);
      assert shared in ClaimedBy(x);
    }
    if id in Gone(loaded, ClaimedBy(x)) && id !in ClaimedBy(x) {
      var shared :| shared in ClaimedBy(x) && shared in loaded && loaded[shared].packaged
                    && loaded[shared].path == loaded[id].path;
      assert Agrees(cfg, items, loaded, disabled, id) && Agrees(cfg, items, loaded, disabled, shared);
      var p :| Survives(cfg, items, p) && id in p.ids && p.path == loaded[id].path;
      var q :| Survives(cfg, items, q) && shared in q.ids && q.path == loaded[id].path;
      assert p == q;
      assert Claims(cfg, p, shared) && Claims(cfg, x, shared);
      assert Clash(cfg, p, x);
    }
  }

  /** How the views of one id change when x arrives. */
  lemma PackagesAfter(cfg: Config, items: set<Item>, x: Item, id: string, path: string)
    requires x !in items
    ensures FromPackage(cfg, items + {x}, id, path) <==>
              || (exists p :: Survives(cfg, items, p) && !Clash(cfg, p, x) && id in p.ids && p.path == path)
              || (Survives(cfg, items + {x}, x) && id in x.ids && x.path == path)
  {
    if FromPackage(cfg, items + {x}, id, path) {
      var p :| Survives(cfg, items + {x}, p) && id in p.ids && p.path == path;
      if p != x { SurvivesMore(cfg, items, x, p); }
    }
    if p :| Survives(cfg, items, p) && !Clash(cfg, p, x) && id in p.ids && p.path == path {
      SurvivesMore(cfg, items, x, p);
    }
  }

  lemma TombstonesAfter(cfg: Config, items: set<Item>, x: Item, id: string)
    requires x !in items
    ensures Tombstoned(cfg, items + {x}, id) <==>
              || Tombstoned(cfg, items, id)
              || Hit(cfg, items, x, id)
              || (x.Package? && id in x.ids && !Survives(cfg, items + {x}, x))
  {
    hide Clash;
    if Tombstoned(cfg, items + {x}, id) {
      var p :| p in items + {x} && p.Package? && id in p.ids && !Survives(cfg, items + {x}, p);
      if p != x { SurvivesMore(cfg, items, x, p); }
    }
    if Tombstoned(cfg, items, id) {
      var p :| p in items && p.Package? && id in p.ids && !Survives(cfg, items, p);
      SurvivesMore(cfg, items, x, p);
    }
    if Hit(cfg, items, x, id) {
      var p :| Survives(cfg, items, p) && Clash(cfg, p, x) && id in p.ids;
      SurvivesMore(cfg, items, x, p);
    }
  }

  lemma LegacyAfter(cfg: Config, items: set<Item>, x: Item, id: string)
    ensures Selected(items + {x}, id) <==> Selected(items, id) || (x.Package? && id in x.ids)
    ensures FromLegacy(cfg, items + {x}, id) <==>
              && !Selected(items + {x}, id)
              && ((exists t :: t in items && t.Legacy? && Claims(cfg, t, id)) || (x.Legacy? && Claims(cfg, x, id)))
  {
  }

  /** A surviving package that claims the id is the only one, so it was hit or it stays. */
  lemma OneHolder(cfg: Config, items: set<Item>, x: Item, id: string, p: Item)
    requires Survives(cfg, items, p) && id in p.ids
    ensures Hit(cfg, items, x, id) <==> Clash(cfg, p, x)
  {
    if q :| Survives(cfg, items, q) && Clash(cfg, q, x) && id in q.ids {
      assert Claims(cfg, p, id) && Claims(cfg, q, id);
      if q != p { assert Clash(cfg, p, q); assert false; }
    }
  }

  // ---- The tables after one more entry point ----------------------------------------

  ghost predicate Ready(cfg: Config, items: set<Item>, loaded: map<string, Tool>, disabled: set<string>, x: Item) {
    AllAgree(cfg, items, loaded, disabled) && x !in items && OneFileEach(items + {x})
  }

  /** A collision removes and tombstones exactly what it should. */
  lemma CollisionAgrees(cfg: Config, items: set<Item>, loaded: map<string, Tool>, disabled: set<string>, x: Item,
                        id: string)
    requires Ready(cfg, items, loaded, disabled, x) && (x.Legacy? ==> Admitted(cfg, x.name))
    requires !Survives(cfg, items + {x}, x) && (x.Legacy? ==> x.name in loaded && loaded[x.name].packaged)
    ensures var gone := Gone(loaded, ClaimedBy(x));
            Agrees(cfg, items + {x}, loaded - gone, disabled + gone, id)
  {
    hide Clash, Survives, Gone, Hit, Claims;
    var gone := Gone(loaded, ClaimedBy(x));
    assert Agrees(cfg, items, loaded, disabled, id);
    GoneExact(cfg, items, loaded, disabled, x, id);
    TombstonesAfter(cfg, items, x, id);
    LegacyAfter(cfg, items, x, id);
    ClaimOf(cfg, x, id);
    if x.Legacy? { NameIsHit(cfg, items, loaded, disabled, x); }
    SurvivorsArePackages(cfg, items);
    forall p | Survives(cfg, items, p) && id in p.ids
      ensures (Hit(cfg, items, x, id) <==> Clash(cfg, p, x)) && (Clash(cfg, p, x) || id !in ClaimedBy(x))
    {
      OneHolder(cfg, items, x, id, p);
      SharingClashes(cfg, p, x, id);
    }
    forall path
      ensures FromPackage(cfg, items + {x}, id, path) <==> FromPackage(cfg, items, id, path) && id !in gone
    {
      PackagesAfter(cfg, items, x, id, path);
    }
    HitIsLoaded(cfg, items, loaded, disabled, x, id);
  }

  lemma SurvivorsArePackages(cfg: Config, items: set<Item>)
    ensures forall p :: Survives(cfg, items, p) ==> p.Package?
  {
  }

  lemma ClaimOf(cfg: Config, x: Item, id: string)
    ensures x.Package? || Admitted(cfg, x.name) ==> (Claims(cfg, x, id) <==> id in ClaimedBy(x))
    ensures x.Legacy? && !Admitted(cfg, x.name) ==> !Claims(cfg, x, id)
  {
  }

  lemma SharingClashes(cfg: Config, p: Item, x: Item, id: string)
    requires p.Package? && id in p.ids && (x.Legacy? ==> Admitted(cfg, x.name))
    ensures id in ClaimedBy(x) ==> Clash(cfg, p, x)
  {
    if id in ClaimedBy(x) { assert Claims(cfg, p, id) && Claims(cfg, x, id); }
  }

  lemma HitIsLoaded(cfg: Config, items: set<Item>, loaded: map<string, Tool>, disabled: set<string>, x: Item,
                    id: string)
    requires AllAgree(cfg, items, loaded, disabled)
    ensures Hit(cfg, items, x, id) ==> id in loaded && loaded[id].packaged
  {
    if p :| Survives(cfg, items, p) && Clash(cfg, p, x) && id in p.ids {
      SharedId(cfg, items, loaded, disabled, p, id);
    }
  }

  lemma NameIsHit(cfg: Config, items: set<Item>, loaded: map<string, Tool>, disabled: set<string>, x: Item)
    requires AllAgree(cfg, items, loaded, disabled) && x.Legacy? && Admitted(cfg, x.name) && x.name in loaded
             && loaded[x.name].packaged
    ensures Hit(cfg, items, x, x.name) && Selected(items, x.name)
  {
    assert Agrees(cfg, items, loaded, disabled, x.name);
    var p :| Survives(cfg, items, p) && x.name in p.ids;
    SharingClashes(cfg, p, x, x.name);
  }

  /** A package without a collision is loaded whole. */
  lemma PackageAgrees(cfg: Config, items: set<Item>, loaded: map<string, Tool>, disabled: set<string>, x: Item,
                      id: string)
    requires Ready(cfg, items, loaded, disabled, x) && x.Package? && Survives(cfg, items + {x}, x)
    ensures Agrees(cfg, items + {x}, loaded + (map i | i in x.ids :: Tool(x.path, true)), disabled, id)
  {
    assert Agrees(cfg, items, loaded, disabled, id);
    CollisionExact(cfg, items, loaded, disabled, x);
    TombstonesAfter(cfg, items, x, id);
    LegacyAfter(cfg, items, x, id);
    forall p | p in items ensures !Clash(cfg, p, x) { ClashSym(cfg, p, x); }
    hide Clash;
    forall path
      ensures FromPackage(cfg, items + {x}, id, path) <==>
                FromPackage(cfg, items, id, path) || (id in x.ids && x.path == path)
    {
      PackagesAfter(cfg, items, x, id, path);
    }
  }

  lemma ClashSym(cfg: Config, p: Item, q: Item)
    ensures Clash(cfg, p, q) <==> Clash(cfg, q, p)
  {
  }

  /** A legacy tool that meets no package under its name takes the name. */
  lemma LegacyAgrees(cfg: Config, items: set<Item>, loaded: map<string, Tool>, disabled: set<string>, x: Item,
                     id: string)
    requires Ready(cfg, items, loaded, disabled, x) && x.Legacy? && Admitted(cfg, x.name)
    requires x.name !in disabled && (x.name in loaded ==> !loaded[x.name].packaged)
    ensures Agrees(cfg, items + {x}, loaded[x.name := Tool(x.path, false)], disabled, id)
  {
    NoPackageNamed(cfg, items, loaded, disabled, x);
    assert Agrees(cfg, items, loaded, disabled, id);
    TombstonesAfter(cfg, items, x, id);
    LegacyAfter(cfg, items, x, id);
    hide Clash;
    forall path
      ensures FromPackage(cfg, items + {x}, id, path) <==> FromPackage(cfg, items, id, path)
    {
      PackagesAfter(cfg, items, x, id, path);
    }
  }

  lemma NoPackageNamed(cfg: Config, items: set<Item>, loaded: map<string, Tool>, disabled: set<string>, x: Item)
    requires AllAgree(cfg, items, loaded, disabled) && x.Legacy?
    requires x.name !in disabled && (x.name in loaded ==> !loaded[x.name].packaged)
    ensures !Selected(items, x.name)
    ensures forall p | p in items && p.Package? :: !Clash(cfg, p, x)
  {
    assert Agrees(cfg, items, loaded, disabled, x.name);
    if p :| p in items && p.Package? && x.name in p.ids {
      if Survives(cfg, items, p) { SharedId(cfg, items, loaded, disabled, p, x.name); }
      assert false;
    }
  }

  /** A legacy tool that is not admitted or whose name is tombstoned changes nothing. */
  lemma SkippedAgrees(cfg: Config, items: set<Item>, loaded: map<string, Tool>, disabled: set<string>, x: Item,
                      id: string)
    requires Ready(cfg, items, loaded, disabled, x) && x.Legacy? && (!Admitted(cfg, x.name) || x.name in disabled)
    ensures Agrees(cfg, items + {x}, loaded, disabled, id)
  {
    assert Agrees(cfg, items, loaded, disabled, id) && Agrees(cfg, items, loaded, disabled, x.name);
    TombstonesAfter(cfg, items, x, id);
    LegacyAfter(cfg, items, x, id);
    forall p | Survives(cfg, items, p) ensures !Clash(cfg, p, x) {
      if x.name in p.ids && Admitted(cfg, x.name) { SharedId(cfg, items, loaded, disabled, p, x.name); }
    }
    hide Clash;
    forall path
      ensures FromPackage(cfg, items + {x}, id, path) <==> FromPackage(cfg, items, id, path)
    {
      PackagesAfter(cfg, items, x, id, path);
    }
  }

  // ---- Which of several legacy tools ------------------------------------------------

  predicate Offers(cfg: Config, it: Item, name: string) { it.Legacy? && Claims(cfg, it, name) }

  /** The file of the last admitted legacy tool of a name. */
  function LastLegacy(cfg: Config, items: seq<Item>, name: string): Option<string> {
    if items == [] then None
    else if Offers(cfg, items[|items| - 1], name) then Some(items[|items| - 1].path)
    else LastLegacy(cfg, items[..|items| - 1], name)
  }

  /** A loaded legacy tool is the last of its name. */
  ghost predicate LastLoaded(cfg: Config, items: seq<Item>, loaded: map<string, Tool>) {
    forall id | id in loaded && !loaded[id].packaged :: LastLegacy(cfg, items, id) == Some(loaded[id].path)
  }

  lemma {:induction false} LastLegacyIs(cfg: Config, items: seq<Item>, name: string)
    ensures LastLegacy(cfg, items, name).None? <==> forall x | x in items :: !Offers(cfg, x, name)
    ensures LastLegacy(cfg, items, name).Some? ==>
              exists x | x in items :: Offers(cfg, x, name) && LastLegacy(cfg, items, name) == Some(x.path)
  {
    if items != [] {
      var front := items[..|items| - 1];
      LastLegacyIs(cfg, front, name);
      assert items == front + [items[|items| - 1]];
    }
  }

  // ---- The discovery loop -----------------------------------------------------------

  datatype Tables = Tables(loaded: map<string, Tool>, disabled: set<string>)

  predicate Collides(t: Tables, ids: set<string>) {
    exists id | id in ids :: id in t.loaded || id in t.disabled
  }

  function Without(t: Tables, gone: set<string>): Tables { Tables(t.loaded - gone, t.disabled + gone) }

  /** The tables after one more entry point. */
  function Meet(cfg: Config, t: Tables, x: Item): Tables {
    match x
    case Package(path, ids) =>
      if Collides(t, ids) then Without(t, Gone(t.loaded, ids))
      else Tables(t.loaded + map id | id in ids :: Tool(path, true), t.disabled)
    case Legacy(path, name) =>
      if name in t.disabled || !Admitted(cfg, name) then t
      else if name in t.loaded && t.loaded[name].packaged then Without(t, Gone(t.loaded, {name}))
      else Tables(t.loaded[name := Tool(path, false)], t.disabled)
  }

  /** What discovery leaves of the entry points it met, in this order. */
  function Load(cfg: Config, items: seq<Item>): Tables {
    if items == [] then Tables(map[], {})
    else Meet(cfg, Load(cfg, items[..|items| - 1]), items[|items| - 1])
  }

  method LoadTools(cfg: Config, items: seq<Item>) returns (loaded: map<string, Tool>, disabled: set<string>)
    requires DistinctFiles(items)
    ensures Tables(loaded, disabled) == Load(cfg, items)
    ensures AllAgree(cfg, ItemSet(items), loaded, disabled) && LastLoaded(cfg, items, loaded)
  {
    hide Meet;
    loaded, disabled := map[], {};
    for i := 0 to |items|
      invariant Tables(loaded, disabled) == Load(cfg, items[..i])
    {
      loaded, disabled := LoadOne(cfg, items[i], loaded, disabled);
      assert items[..i + 1][..i] == items[..i] && items[..i + 1][i] == items[i];
    }
    assert items[..|items|] == items;
    LoadAgrees(cfg, items);
  }

  /** One entry point: a colliding group is removed and tombstoned, a tombstoned name is skipped. */
  method LoadOne(cfg: Config, x: Item, loaded: map<string, Tool>, disabled: set<string>)
    returns (loaded': map<string, Tool>, disabled': set<string>)
    ensures Tables(loaded', disabled') == Meet(cfg, Tables(loaded, disabled), x)
  {
    hide Gone;
    loaded', disabled' := loaded, disabled;
    if x.Package? {
      var collisions := set id | id in x.ids && (id in loaded || id in disabled);
      assert collisions == {} <==> !Collides(Tables(loaded, disabled), x.ids) by {
        if id :| id in x.ids && (id in loaded || id in disabled) { assert id in collisions; }
      }
      if collisions != {} {
        var gone := Gone(loaded, x.ids);
        loaded', disabled' := loaded - gone, disabled + gone;
      } else {
        loaded' := loaded + map id | id in x.ids :: Tool(x.path, true);
      }
    } else if x.name !in disabled && Admitted(cfg, x.name) {
      if x.name in loaded && loaded[x.name].packaged {
        var gone := Gone(loaded, {x.name});
        loaded', disabled' := loaded - gone, disabled + gone;
      } else {
        loaded' := loaded[x.name := Tool(x.path, false)];
      }
    }
  }

  // ---- What the loop leaves ---------------------------------------------------------

  ghost function ItemSet(items: seq<Item>): set<Item> { set x | x in items }

  lemma NextItem(items: seq<Item>, i: nat)
    requires DistinctFiles(items) && i < |items|
    ensures ItemSet(items[..i + 1]) == ItemSet(items[..i]) + {items[i]} && items[i] !in ItemSet(items[..i])
    ensures OneFileEach(ItemSet(items[..i + 1]))
  {
    assert items[..i + 1] == items[..i] + [items[i]];
  }

  /** One more entry point keeps the tables in agreement with the order-free definitions. */
  lemma MeetAgrees(cfg: Config, items: set<Item>, t: Tables, x: Item)
    requires Ready(cfg, items, t.loaded, t.disabled, x)
    ensures AllAgree(cfg, items + {x}, Meet(cfg, t, x).loaded, Meet(cfg, t, x).disabled)
  {
    hide Agrees, Survives, Gone;
    var u := Meet(cfg, t, x);
    if x.Package? {
      CollisionExact(cfg, items, t.loaded, t.disabled, x);
    } else {
      LegacyNeverSurvives(cfg, items + {x}, x);
    }
    forall id
      ensures Agrees(cfg, items + {x}, u.loaded, u.disabled, id)
    {
      if x.Package? {
        if Collides(t, x.ids) {
          CollisionAgrees(cfg, items, t.loaded, t.disabled, x, id);
        } else {
          PackageAgrees(cfg, items, t.loaded, t.disabled, x, id);
        }
      } else if x.name in t.disabled || !Admitted(cfg, x.name) {
        SkippedAgrees(cfg, items, t.loaded, t.disabled, x, id);
      } else if x.name in t.loaded && t.loaded[x.name].packaged {
        CollisionAgrees(cfg, items, t.loaded, t.disabled, x, id);
      } else {
        LegacyAgrees(cfg, items, t.loaded, t.disabled, x, id);
      }
    }
  }

  /** A legacy tool replaces an earlier one of its name; nothing else touches a loaded legacy tool's file. */
  lemma MeetLegacy(cfg: Config, items: set<Item>, t: Tables, x: Item)
    requires Ready(cfg, items, t.loaded, t.disabled, x)
    ensures var u := Meet(cfg, t, x).loaded;
            forall id | id in u && !u[id].packaged ::
              if Offers(cfg, x, id) then u[id].path == x.path else id in t.loaded && u[id] == t.loaded[id]
  {
    TombstonedNotLegacy(cfg, items, t.loaded, t.disabled);
    hide AllAgree, Gone;
  }

  /**
   What discovery leaves under an id: the one package that selects it, when that package shares
   no id with any other package or admitted legacy tool; else a legacy tool of that name, when
   one is admitted and no package selects the id - the last one met; else nothing.
   */
  lemma {:induction false} LoadAgrees(cfg: Config, items: seq<Item>)
    requires DistinctFiles(items)
    ensures var t := Load(cfg, items);
            AllAgree(cfg, ItemSet(items), t.loaded, t.disabled) && LastLoaded(cfg, items, t.loaded)
  {
    if items != [] {
      var n := |items| - 1;
      var front, x := items[..n], items[n];
      LoadAgrees(cfg, front);
      NextItem(items, n);
      assert items[..n + 1] == items;
      hide AllAgree, Meet, Offers;
      MeetAgrees(cfg, ItemSet(front), Load(cfg, front), x);
      MeetLegacy(cfg, ItemSet(front), Load(cfg, front), x);
    }
  }

  // ---- When the order decides -------------------------------------------------------

  /** The same entry points, met in some order. */
  predicate Reordering(items: seq<Item>, other: seq<Item>) { multiset(other) == multiset(items) }

  function Loaded(cfg: Config, items: seq<Item>, name: string): Option<Tool> {
    var loaded := Load(cfg, items).loaded;
    if name in loaded then Some(loaded[name]) else None
  }

  /** Another order of the same entry points leaves something else under the name. */
  ghost predicate OrderMatters(cfg: Config, items: seq<Item>, name: string) {
    exists other :: Reordering(items, other) && Loaded(cfg, other, name) != Loaded(cfg, items, name)
  }

  /** Every order of distinct files is one of distinct files. */
  lemma ReorderedFiles(items: seq<Item>, other: seq<Item>)
    requires DistinctFiles(items) && Reordering(items, other)
    ensures DistinctFiles(other) && ItemSet(other) == ItemSet(items)
  {
    assert forall x :: (x in items <==> x in multiset(items)) && (x in other <==> x in multiset(other));
    forall i, j | 0 <= i < j < |other|
      ensures other[i].path != other[j].path
    {
      if other[i] == other[j] {
        Twice(other, i, j);
        Once(items, other[i]);
      } else {
        assert other[i] in items && other[j] in items;
      }
    }
  }

  lemma Twice(items: seq<Item>, i: nat, j: nat)
    requires i < j < |items| && items[i] == items[j]
    ensures multiset(items)[items[i]] >= 2
  {
    assert items == items[..j] + [items[j]] + items[j + 1..];
    assert items[i] in items[..j];
  }

  lemma {:induction false} Once(items: seq<Item>, x: Item)
    requires DistinctFiles(items)
    ensures multiset(items)[x] <= 1
  {
    if items != [] {
      var n := |items| - 1;
      Once(items[..n], x);
      assert items == items[..n] + [items[n]];
      if x == items[n] { assert x !in items[..n]; }
    }
  }

  /** Moves one entry point to the end. */
  function MovedLast(items: seq<Item>, i: nat): seq<Item>
    requires i < |items|
  {
    items[..i] + items[i + 1..] + [items[i]]
  }

  lemma MovedLastSame(items: seq<Item>, i: nat)
    requires i < |items|
    ensures Reordering(items, MovedLast(items, i))
  {
    assert items == items[..i] + [items[i]] + items[i + 1..];
  }

  /** Two admitted legacy tools have the name and no package selects it. */
  ghost predicate Contested(cfg: Config, items: seq<Item>, name: string) {
    && !Selected(ItemSet(items), name)
    && exists i, j | 0 <= i < j < |items| :: Offers(cfg, items[i], name) && Offers(cfg, items[j], name)
  }

  /** What is left under a name that no package selects: the last admitted legacy tool of the name. */
  lemma UnselectedLoads(cfg: Config, items: seq<Item>, name: string)
    requires DistinctFiles(items) && !Selected(ItemSet(items), name)
    ensures Loaded(cfg, items, name)
            == match LastLegacy(cfg, items, name) case None => None case Some(path) => Some(Tool(path, false))
  {
    LoadAgrees(cfg, items);
    var t := Load(cfg, items);
    assert Agrees(cfg, ItemSet(items), t.loaded, t.disabled, name);
    LastLegacyIs(cfg, items, name);
  }

  /**
   The order of the entry points decides what is loaded under a name exactly when two admitted legacy
   tools have it and no package selects it.
   */
  lemma OrderMattersExact(cfg: Config, items: seq<Item>, name: string)
    requires DistinctFiles(items)
    ensures OrderMatters(cfg, items, name) <==> Contested(cfg, items, name)
  {
    hide Offers, Load, Selected, Reordering, LastLegacy, DistinctFiles;
    if OrderMatters(cfg, items, name) {
      var other :| Reordering(items, other) && Loaded(cfg, other, name) != Loaded(cfg, items, name);
      DifferenceContested(cfg, items, other, name);
    }
    if Contested(cfg, items, name) {
      var i, j :| 0 <= i < j < |items| && Offers(cfg, items[i], name) && Offers(cfg, items[j], name);
      var k := if LastLegacy(cfg, items, name) == Some(items[i].path) then j else i;
      LastMoved(cfg, items, name, i, j, k);
      ReorderedFiles(items, MovedLast(items, k));
      UnselectedLoads(cfg, items, name);
      UnselectedLoads(cfg, MovedLast(items, k), name);
    }
  }

  lemma LastMoved(cfg: Config, items: seq<Item>, name: string, i: nat, j: nat, k: nat)
    requires DistinctFiles(items) && i < j < |items| && Offers(cfg, items[i], name) && Offers(cfg, items[j], name)
    requires k == if LastLegacy(cfg, items, name) == Some(items[i].path) then j else i
    ensures Reordering(items, MovedLast(items, k))
    ensures LastLegacy(cfg, MovedLast(items, k), name) != LastLegacy(cfg, items, name)
  {
    hide Offers;
    MovedLastSame(items, k);
    var other := MovedLast(items, k);
    assert other[|other| - 1] == items[k];
    assert LastLegacy(cfg, other, name) == Some(items[k].path);
  }

  lemma DifferenceContested(cfg: Config, items: seq<Item>, other: seq<Item>, name: string)
    requires DistinctFiles(items) && Reordering(items, other)
    requires Loaded(cfg, other, name) != Loaded(cfg, items, name)
    ensures Contested(cfg, items, name)
  {
    ReorderedFiles(items, other);
    LoadAgrees(cfg, items);
    LoadAgrees(cfg, other);
    var t, u := Load(cfg, items), Load(cfg, other);
    assert Agrees(cfg, ItemSet(items), t.loaded, t.disabled, name);
    assert Agrees(cfg, ItemSet(items), u.loaded, u.disabled, name);
    assert LastLegacy(cfg, other, name) != LastLegacy(cfg, items, name);
    TwoOffers(cfg, items, other, name);
  }

  lemma TwoOffers(cfg: Config, items: seq<Item>, other: seq<Item>, name: string)
    requires Reordering(items, other) && LastLegacy(cfg, other, name) != LastLegacy(cfg, items, name)
    ensures exists i, j | 0 <= i < j < |items| :: Offers(cfg, items[i], name) && Offers(cfg, items[j], name)
  {
    hide Offers, LastLegacy;
    assert forall x :: (x in items <==> x in multiset(items)) && (x in other <==> x in multiset(other));
    LastLegacyIs(cfg, items, name);
    LastLegacyIs(cfg, other, name);
    var x :| x in items && Offers(cfg, x, name) && LastLegacy(cfg, items, name) == Some(x.path);
    var y :| y in other && Offers(cfg, y, name) && LastLegacy(cfg, other, name) == Some(y.path);
    var i :| 0 <= i < |items| && items[i] == x;
    var j :| 0 <= j < |items| && items[j] == y;
    if i < j {
      assert Offers(cfg, items[i], name) && Offers(cfg, items[j], name);
    } else {
      assert Offers(cfg, items[j], name) && Offers(cfg, items[i], name);
    }
  }

  /** Two admitted legacy tools of one name: the one met last is loaded. */
  lemma OrderExample(cfg: Config, first: string, second: string, name: string)
    requires Admitted(cfg, name)
    ensures Loaded(cfg, [Legacy(first, name), Legacy(second, name)], name) == Some(Tool(second, false))
    ensures Loaded(cfg, [Legacy(second, name), Legacy(first, name)], name) == Some(Tool(first, false))
  {
    TwoLegacy(cfg, first, second, name);
    TwoLegacy(cfg, second, first, name);
  }

  lemma TwoLegacy(cfg: Config, first: string, second: string, name: string)
    requires Admitted(cfg, name)
    ensures Loaded(cfg, [Legacy(first, name), Legacy(second, name)], name) == Some(Tool(second, false))
  {
    var one, two := [Legacy(first, name)], [Legacy(first, name), Legacy(second, name)];
    assert one[..0] == [] && two[..1] == one;
    assert Load(cfg, one) == Tables(map[name := Tool(first, false)], {});
  }

  /** With a package that selects the name as well, nothing is loaded under it in any order. */
  lemma SelectedExample(cfg: Config, first: string, second: string, third: string, name: string, order: seq<Item>)
    requires Admitted(cfg, name) && first != second && first != third && second != third
    requires Reordering([Legacy(first, name), Legacy(second, name), Package(third, {name})], order)
    ensures Loaded(cfg, order, name) == None
  {
    var items := [Legacy(first, name), Legacy(second, name), Package(third, {name})];
    ReorderedFiles(items, order);
    LoadAgrees(cfg, order);
    var t := Load(cfg, order);
    assert items[0] in ItemSet(items) && items[2] in ItemSet(items);
    assert Agrees(cfg, ItemSet(items), t.loaded, t.disabled, name);
    assert Claims(cfg, items[2], name) && Claims(cfg, items[0], name);
    assert Clash(cfg, items[2], items[0]);
  }

  lemma TombstonedNotLegacy(cfg: Config, items: set<Item>, loaded: map<string, Tool>, disabled: set<string>)
    requires AllAgree(cfg, items, loaded, disabled)
    ensures forall id | id in loaded && !loaded[id].packaged :: id !in disabled
  {
    forall id | id in loaded && !loaded[id].packaged
      ensures id !in disabled
    {
      assert Agrees(cfg, items, loaded, disabled, id);
    }
  }

  lemma LegacyNeverSurvives(cfg: Config, items: set<Item>, x: Item)
    requires x.Legacy?
    ensures !Survives(cfg, items, x)
  {
  }

  // ---- Survival --------------------------------------------------------------------

  /**
   A package that selects something is loaded whole exactly when it is disjoint from every other
   package and every admitted legacy name, and otherwise not one of its ids is loaded from it;
   an admitted legacy name is loaded exactly when no package selects it.
   */
  lemma SurvivalExact(cfg: Config, items: set<Item>, loaded: map<string, Tool>, disabled: set<string>, x: Item,
                      id: string)
    requires AllAgree(cfg, items, loaded, disabled) && OneFileEach(items) && x in items && Claims(cfg, x, id)
    ensures x.Package? ==>
              (id in loaded && loaded[id] == Tool(x.path, true) <==>
                 forall y | y in items && y != x :: forall j | Claims(cfg, y, j) :: j !in x.ids)
    ensures x.Legacy? ==>
              (id in loaded && !loaded[id].packaged <==> forall y | y in items && y.Package? :: id !in y.ids)
  {
    assert Agrees(cfg, items, loaded, disabled, id);
    if x.Package? {
      forall y ensures !Clash(cfg, x, y) <==> forall j | Claims(cfg, y, j) :: j !in x.ids { DisjointMeans(cfg, x, y); }
      if Survives(cfg, items, x) { SharedId(cfg, items, loaded, disabled, x, id); }
      if id in loaded && loaded[id] == Tool(x.path, true) { HolderSurvives(cfg, items, loaded, disabled, x, id); }
    }
  }

  /**
   A legacy tool is loaded under a name exactly when one is found, no package selects the name, and the name
   is required internally or else neither blocked nor missing from a list of allowed names.
   */
  lemma LegacyLoadedExactly(cfg: Config, items: seq<Item>, name: string)
    requires DistinctFiles(items)
    ensures var t := Load(cfg, items);
            name in t.loaded && !t.loaded[name].packaged <==>
            && (exists i | 0 <= i < |items| :: items[i].Legacy? && items[i].name == name)
            && (forall i | 0 <= i < |items| && items[i].Package? :: name !in items[i].ids)
            && (name in cfg.internal
                || (name !in cfg.blocked && (cfg.allowed.None? || name in cfg.allowed.value)))
  {
    LoadAgrees(cfg, items);
    var t := Load(cfg, items);
    hide Load;
    assert Agrees(cfg, ItemSet(items), t.loaded, t.disabled, name);
    hide Survives, FromPackage, Tombstoned;
    if FromLegacy(cfg, ItemSet(items), name) {
      var x :| x in ItemSet(items) && x.Legacy? && Claims(cfg, x, name);
      assert exists i | 0 <= i < |items| :: items[i] == x;
    }
    if i :| 0 <= i < |items| && items[i].Legacy? && items[i].name == name {
      assert items[i] in ItemSet(items);
    }
    forall i | 0 <= i < |items| ensures items[i] in ItemSet(items) {}
  }

  lemma DisjointMeans(cfg: Config, x: Item, y: Item)
    requires x.Package?
    ensures !Clash(cfg, x, y) <==> forall j | Claims(cfg, y, j) :: j !in x.ids
  {
    if j :| Claims(cfg, y, j) && j in x.ids { assert Claims(cfg, x, j); }
  }

  lemma HolderSurvives(cfg: Config, items: set<Item>, loaded: map<string, Tool>, disabled: set<string>, x: Item,
                       id: string)
    requires AllAgree(cfg, items, loaded, disabled) && OneFileEach(items) && x in items && x.Package?
    requires id in loaded && loaded[id] == Tool(x.path, true)
    ensures Survives(cfg, items, x) && id in x.ids
  {
    assert Agrees(cfg, items, loaded, disabled, id);
    var p :| Survives(cfg, items, p) && id in p.ids && p.path == x.path;
  }

  /** The order in which entry points are met does not matter to what is loaded or tombstoned. */
  lemma OrderIndependent(cfg: Config, first: seq<Item>, second: seq<Item>,
                         l1: map<string, Tool>, d1: set<string>, l2: map<string, Tool>, d2: set<string>)
    requires multiset(first) == multiset(second)
    requires AllAgree(cfg, ItemSet(first), l1, d1) && AllAgree(cfg, ItemSet(second), l2, d2)
    ensures l1.Keys == l2.Keys && d1 == d2
    ensures forall id | id in l1 :: l1[id].packaged == l2[id].packaged && (l1[id].packaged ==> l1[id] == l2[id])
  {
    var items := ItemSet(first);
    assert items == ItemSet(second) by {
      assert forall x :: x in first <==> x in multiset(first);
      assert forall x :: x in second <==> x in multiset(second);
    }
    forall id
      ensures (id in l1 <==> id in l2) && (id in d1 <==> id in d2)
      ensures id in l1 ==> l1[id].packaged == l2[id].packaged && (l1[id].packaged ==> l1[id] == l2[id])
    {
      assert Agrees(cfg, items, l1, d1, id) && Agrees(cfg, items, l2, d2, id);
    }
  }
}
