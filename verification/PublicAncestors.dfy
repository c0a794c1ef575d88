/** Whether a file is public through its folders: the bounded walk of the service against the recursive query. */
module PublicAncestors {
  import opened Options
  import opened Sets

  type Id = string

  datatype Folder = Folder(parent: Option<Id>, public: bool, deleted: bool)

  /** Any parent graph: cycles, dangling parents and deleted folders included. */
  type Graph = map<Id, Folder>

  const WALK: nat := 5
  const DEPTH: nat := 10

  predicate Live(g: Graph, id: Id) {
    id in g && !g[id].deleted
  }

  /** A parent column that is NULL or empty has no folder. */
  function Parent(g: Graph, id: Id): Option<Id>
    requires id in g
  {
    if g[id].parent == Some("") then None else g[id].parent
  }

  /** The n-th live folder up from `id`, itself the 0-th; None once the way ends or meets a deleted folder. */
  function Ancestor(g: Graph, id: Id, n: nat): (r: Option<Id>)
    ensures r.Some? ==> Live(g, r.value)
  {
    if n == 0 then if Live(g, id) then Some(id) else None
    else
      var below := Ancestor(g, id, n - 1);
      if below.None? then None
      else
        var up := Parent(g, below.value);
        if up.Some? && Live(g, up.value) then up else None
  }

  /** Live folders, each the parent of the one before it. */
  predicate IsWay(g: Graph, way: seq<Id>) {
    && (forall k :: 0 <= k < |way| ==> way[k] in g && !g[way[k]].deleted)
    && (forall k :: 0 < k < |way| ==> IsParent(g, way[k - 1], way[k]))
  }

  predicate IsParent(g: Graph, child: Id, parent: Id) {
    child in g && parent != "" && g[child].parent == Some(parent)
  }

  predicate Leads(g: Graph, way: seq<Id>, id: Id, n: nat, x: Id) {
    IsWay(g, way) && |way| == n + 1 && way[0] == id && way[n] == x
  }

  /** The n-th folder up is x exactly when n parent links lead from `id` to x through live folders. */
  lemma {:induction false} AncestorIff(g: Graph, id: Id, n: nat, x: Id)
    ensures Ancestor(g, id, n) == Some(x) <==> exists way :: Leads(g, way, id, n, x)
  {
    if n == 0 {
      assert Live(g, id) ==> Leads(g, [id], id, 0, id);
    } else {
      if Ancestor(g, id, n) == Some(x) {
        var below := Ancestor(g, id, n - 1).value;
        AncestorIff(g, id, n - 1, below);
        var way :| Leads(g, way, id, n - 1, below);
        assert Leads(g, way + [x], id, n, x);
      }
      if way :| Leads(g, way, id, n, x) {
        assert Leads(g, way[..n], id, n - 1, way[n - 1]);
        AncestorIff(g, id, n - 1, way[n - 1]);
      }
    }
  }

  predicate PublicAt(g: Graph, id: Id, n: nat) {
    Ancestor(g, id, n).Some? && g[Ancestor(g, id, n).value].public
  }

  predicate PublicWithin(g: Graph, id: Id, n: nat) {
    exists k: nat :: k < n && PublicAt(g, id, k)
  }

  /** Some folder above, at any distance, is public. */
  ghost predicate Reachable(g: Graph, id: Id) {
    exists k: nat :: PublicAt(g, id, k)
  }

  /** Once the way has ended it stays ended. */
  lemma {:induction false} EndedStaysEnded(g: Graph, id: Id, n: nat, m: nat)
    requires Ancestor(g, id, n).None? && n <= m
    ensures Ancestor(g, id, m).None?
    decreases m
  {
    if n < m {
      EndedStaysEnded(g, id, n, m - 1);
    }
  }

  // ---------------------------------------------------------------- the walk

  datatype File = File(public: bool, folder: Option<Id>)

  class FolderRepository {
    var folders: Graph

    constructor (folders: Graph)
      ensures this.folders == folders
    {
      this.folders := folders;
    }

    method FindByID(id: Id) returns (folder: Option<Folder>)
      ensures folder == if Live(folders, id) then Some(folders[id]) else None
    {
      if id in folders && !folders[id].deleted {
        folder := Some(folders[id]);
      } else {
        folder := None;
      }
    }
  }

  /** The walk of at most five folders. */
  method IsAccessiblePublicly(repo: FolderRepository, file: File) returns (accessible: bool)
    ensures accessible <==> file.public || (file.folder.Some? && PublicWithin(repo.folders, file.folder.value, 5))
  {
    if file.public {
      return true;
    }
    if file.folder.Some? {
      ghost var start := file.folder.value;
      var current := file.folder.value;
      var i: nat := 0;
      while i < WALK
        invariant i <= WALK
        invariant forall k: nat :: k < i ==> !PublicAt(repo.folders, start, k)
        invariant Ancestor(repo.folders, start, i) == if Live(repo.folders, current) then Some(current) else None
      {
        var folder := repo.FindByID(current);
        if folder.None? {
          EndedForGood(repo.folders, start, i);
          break;
        }
        if folder.value.public {
          assert PublicAt(repo.folders, start, i);
          return true;
        }
        if folder.value.parent.None? || folder.value.parent.value == "" {
          EndedForGood(repo.folders, start, i + 1);
          break;
        }
        current := folder.value.parent.value;
        i := i + 1;
      }
    }
    return false;
  }

  lemma EndedForGood(g: Graph, id: Id, n: nat)
    requires Ancestor(g, id, n).None?
    ensures forall k: nat :: n <= k ==> !PublicAt(g, id, k)
  {
    forall k: nat | n <= k ensures !PublicAt(g, id, k) {
      EndedStaysEnded(g, id, n, k);
    }
  }

  // ---------------------------------------------------------------- the recursive query

  /** A row of the recursive table. */
  datatype Row = Row(id: Id, depth: nat)

  /** The rows the recursive term adds to those of the previous round. */
  function Joined(g: Graph, rows: set<Row>): set<Row> {
    set p, r | r in rows && p in g && r.id in g && Parent(g, r.id) == Some(p) && !g[p].deleted && r.depth < DEPTH ::
      Row(p, r.depth + 1)
  }

  /** UNION ALL over the rounds; every row of a round has the round's depth. */
  function Rounds(g: Graph, rows: set<Row>, round: nat): set<Row>
    decreases DEPTH - round
  {
    if rows == {} || round >= DEPTH then rows else rows + Rounds(g, Joined(g, rows), round + 1)
  }

  function Hierarchy(g: Graph, id: Id): set<Row> {
    Rounds(g, if Live(g, id) then {Row(id, 1)} else {}, 1)
  }

  /** FindByIDPublic finds the folder. */
  predicate FoundPublic(g: Graph, id: Id) {
    Live(g, id) && exists r :: r in Hierarchy(g, id) && r.id in g && g[r.id].public
  }

  /** The rows of one round: the ancestor at that distance, if there is one. */
  function Round(g: Graph, id: Id, round: nat): set<Row>
    requires round >= 1
  {
    if Ancestor(g, id, round - 1).Some? then {Row(Ancestor(g, id, round - 1).value, round)} else {}
  }

  lemma JoinedIsNext(g: Graph, id: Id, round: nat)
    requires 1 <= round < DEPTH
    ensures Joined(g, Round(g, id, round)) == Round(g, id, round + 1)
  {
    var rows := Round(g, id, round);
    if rows != {} {
      var r := Row(Ancestor(g, id, round - 1).value, round);
      assert rows == {r};
      var up := Parent(g, r.id);
      if up.Some? && Live(g, up.value) {
        assert Row(up.value, round + 1) in Joined(g, rows);
      }
    }
  }

  lemma RoundHas(g: Graph, id: Id, round: nat, r: Row)
    requires round >= 1
    ensures r in Round(g, id, round) <==> r.depth == round && Ancestor(g, id, round - 1) == Some(r.id)
  {}

  lemma RoundsUnfold(g: Graph, id: Id, round: nat)
    requires 1 <= round < DEPTH && Round(g, id, round) != {}
    ensures Rounds(g, Round(g, id, round), round) == Round(g, id, round) + Rounds(g, Round(g, id, round + 1), round + 1)
  {
    JoinedIsNext(g, id, round);
  }

  /** The rows of all rounds from this one on. */
  function From(g: Graph, id: Id, round: nat): set<Row>
    requires 1 <= round <= DEPTH
  {
    Rounds(g, Round(g, id, round), round)
  }

  lemma FromUnfold(g: Graph, id: Id, round: nat, r: Row)
    requires 1 <= round <= DEPTH
    ensures r in From(g, id, round) <==>
      (r.depth == round && Ancestor(g, id, round - 1) == Some(r.id))
      || (Ancestor(g, id, round - 1).Some? && round < DEPTH && r in From(g, id, round + 1))
  {
    RoundHas(g, id, round, r);
    if Ancestor(g, id, round - 1).Some? && round < DEPTH {
      assert Row(Ancestor(g, id, round - 1).value, round) in Round(g, id, round);
      RoundsUnfold(g, id, round);
    }
  }

  lemma {:induction false} RoundsAre(g: Graph, id: Id, round: nat, r: Row)
    requires 1 <= round <= DEPTH
    ensures r in From(g, id, round) <==> round <= r.depth <= DEPTH && Ancestor(g, id, r.depth - 1) == Some(r.id)
    decreases DEPTH - round
  {
    FromUnfold(g, id, round, r);
    if Ancestor(g, id, round - 1).None? {
      if r.depth >= round {
        EndedStaysEnded(g, id, round - 1, r.depth - 1);
      }
    } else if round < DEPTH {
      RoundsAre(g, id, round + 1, r);
    }
  }

  /** The recursive table holds exactly the first ten live folders on the way up, each with its distance. */
  lemma HierarchyExact(g: Graph, id: Id, r: Row)
    ensures r in Hierarchy(g, id) <==> 1 <= r.depth <= 10 && Ancestor(g, id, r.depth - 1) == Some(r.id)
  {
    RoundsAre(g, id, 1, r);
  }

  /** The query finds the folder exactly when one of its first ten live folders is public. */
  lemma QueryExact(g: Graph, id: Id)
    ensures FoundPublic(g, id) <==> PublicWithin(g, id, 10)
  {
    if FoundPublic(g, id) {
      var r :| r in Hierarchy(g, id) && r.id in g && g[r.id].public;
      HierarchyExact(g, id, r);
      assert PublicAt(g, id, r.depth - 1);
    }
    if PublicWithin(g, id, DEPTH) {
      var k: nat :| k < DEPTH && PublicAt(g, id, k);
      HierarchyExact(g, id, Row(Ancestor(g, id, k).value, k + 1));
      if Ancestor(g, id, 0).None? {
        EndedStaysEnded(g, id, 0, k);
      }
    }
  }

  /** A file the walk shows through its folder lies in a folder the query shows. */
  lemma WalkImpliesQuery(g: Graph, id: Id)
    requires PublicWithin(g, id, 5)
    ensures FoundPublic(g, id)
  {
    QueryExact(g, id);
  }

  predicate Nearest(g: Graph, id: Id, k: nat) {
    PublicAt(g, id, k) && forall j: nat :: j < k ==> !PublicAt(g, id, j)
  }

  lemma {:induction false} NearestOf(g: Graph, id: Id, from: nat, far: nat) returns (k: nat)
    requires from <= far && PublicAt(g, id, far) && forall j: nat :: j < from ==> !PublicAt(g, id, j)
    ensures from <= k <= far && Nearest(g, id, k)
    decreases far - from
  {
    if PublicAt(g, id, from) {
      k := from;
    } else {
      k := NearestOf(g, id, from + 1, far);
    }
  }

  /** The query shows a folder whose files the walk hides exactly when the nearest public one is the sixth to tenth. */
  lemma QueryWithoutWalkIff(g: Graph, id: Id)
    ensures FoundPublic(g, id) && !PublicWithin(g, id, 5) <==> exists k: nat :: 5 <= k < 10 && Nearest(g, id, k)
  {
    QueryExact(g, id);
    if FoundPublic(g, id) && !PublicWithin(g, id, WALK) {
      var far: nat :| far < DEPTH && PublicAt(g, id, far);
      var k := NearestOf(g, id, WALK, far);
    }
  }

  // ---------------------------------------------------------------- unbounded reachability

  /** The distinct live folders among the first n. */
  function Seen(g: Graph, id: Id, n: nat): set<Id> {
    if n == 0 then {}
    else Seen(g, id, n - 1) + if Ancestor(g, id, n - 1).Some? then {Ancestor(g, id, n - 1).value} else {}
  }

  lemma {:induction false} SeenAt(g: Graph, id: Id, n: nat, x: Id) returns (k: nat)
    requires x in Seen(g, id, n)
    ensures k < n && Ancestor(g, id, k) == Some(x)
  {
    if Ancestor(g, id, n - 1) == Some(x) {
      k := n - 1;
    } else {
      k := SeenAt(g, id, n - 1, x);
    }
  }

  lemma {:induction false} AtSeen(g: Graph, id: Id, n: nat, k: nat)
    requires k < n && Ancestor(g, id, k).Some?
    ensures Ancestor(g, id, k).value in Seen(g, id, n)
  {
    if k < n - 1 {
      AtSeen(g, id, n - 1, k);
    }
  }

  /** When the n-th folder is not new, no later one is. */
  lemma {:induction false} ClosedStaysClosed(g: Graph, id: Id, n: nat, m: nat)
    requires Ancestor(g, id, n).Some? ==> Ancestor(g, id, n).value in Seen(g, id, n)
    requires n <= m
    ensures Ancestor(g, id, m).Some? ==> Ancestor(g, id, m).value in Seen(g, id, n)
    decreases m
  {
    if n < m && Ancestor(g, id, m).Some? {
      ClosedStaysClosed(g, id, n, m - 1);
      var k := SeenAt(g, id, n, Ancestor(g, id, m - 1).value);
      assert Ancestor(g, id, k + 1) == Ancestor(g, id, m);
      if k + 1 < n {
        AtSeen(g, id, n, k + 1);
      }
    }
  }

  /** Either some earlier folder is not new, or the first n are all different. */
  lemma {:induction false} GrowsOrCloses(g: Graph, id: Id, n: nat) returns (c: nat)
    ensures c <= n
    ensures c < n ==> (Ancestor(g, id, c).Some? ==> Ancestor(g, id, c).value in Seen(g, id, c))
    ensures c == n ==> |Seen(g, id, n)| == n
  {
    if n == 0 {
      c := 0;
    } else {
      c := GrowsOrCloses(g, id, n - 1);
      if c == n - 1 && Ancestor(g, id, n - 1).Some? && Ancestor(g, id, n - 1).value !in Seen(g, id, n - 1) {
        c := n;
      }
    }
  }

  /** All live folders on the way up lie in `all`. */
  ghost predicate Confined(g: Graph, id: Id, all: set<Id>) {
    forall k: nat :: Ancestor(g, id, k).Some? ==> Ancestor(g, id, k).value in all
  }

  lemma {:induction false} SeenConfined(g: Graph, id: Id, n: nat, all: set<Id>)
    requires Confined(g, id, all)
    ensures Seen(g, id, n) <= all
  {
    if n > 0 {
      SeenConfined(g, id, n - 1, all);
    }
  }

  /** A way up through at most n different folders has met them all after n steps, cycles included. */
  lemma BoundedIsUnbounded(g: Graph, id: Id, n: nat, all: set<Id>)
    requires Confined(g, id, all) && |all| <= n
    ensures PublicWithin(g, id, n) <==> Reachable(g, id)
  {
    var c := GrowsOrCloses(g, id, n + 1);
    SeenConfined(g, id, n + 1, all);
    SubsetSize(Seen(g, id, n + 1), all);
    if Reachable(g, id) {
      var k: nat :| PublicAt(g, id, k);
      if k >= c {
        ClosedStaysClosed(g, id, c, k);
        var j := SeenAt(g, id, c, Ancestor(g, id, k).value);
        assert PublicAt(g, id, j);
      }
    }
  }

  /** With at most five different folders above, the walk and the query both decide unbounded reachability. */
  lemma WalkAndQueryDecide(g: Graph, id: Id, all: set<Id>)
    requires Confined(g, id, all)
    ensures |all| <= 5 ==> (PublicWithin(g, id, 5) <==> Reachable(g, id))
    ensures |all| <= 10 ==> (FoundPublic(g, id) <==> Reachable(g, id))
  {
    QueryExact(g, id);
    if |all| <= WALK {
      BoundedIsUnbounded(g, id, WALK, all);
    }
    if |all| <= DEPTH {
      BoundedIsUnbounded(g, id, DEPTH, all);
    }
  }
}
