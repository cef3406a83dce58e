/**
 The filesystem-backed result store: one file per entry and an index file that lists every entry.
 A disk maps file stems to contents; the index is the stem "index". A write through a temporary
 file and a rename is one step on the disk.
 */
module ResultStore {
  import opened Wrappers

  datatype Status = Queued | Starting | Running | Completed | Failed | Cancelled

  datatype Info = Info(id: string, status: Status, details: string) {
    predicate Terminal()
      ensures Terminal() <==> !status.Queued? && !status.Starting? && !status.Running?
    {
      status.Completed? || status.Failed? || status.Cancelled?
    }
  }

  datatype Stored = Stored(info: Info, body: string)
  datatype Content = Entry(entry: Stored) | Index(infos: seq<Info>)
  type Disk = map<string, Content>

  const INDEX: string := "index"

  /** An index that is missing, or holds anything but a list, reads as empty. */
  function LoadIndex(disk: Disk): seq<Info> {
    if INDEX in disk && disk[INDEX].Index? then disk[INDEX].infos else []
  }

  function LoadEntry(disk: Disk, id: string): Option<Stored> {
    if id in disk && disk[id].Entry? then Some(disk[id].entry) else None
  }

  // ---------------------------------------------------------------------------
  // Index lists
  // ---------------------------------------------------------------------------

  predicate Distinct(index: seq<Info>) {
    forall i, j :: 0 <= i < j < |index| ==> index[i].id != index[j].id
  }

  /** The first position of `id`, or the length of the list. */
  function Find(index: seq<Info>, id: string): (p: nat)
    ensures p <= |index| && (p < |index| ==> index[p].id == id) && forall i :: 0 <= i < p ==> index[i].id != id
  {
    if index == [] || index[0].id == id then 0 else 1 + Find(index[1..], id)
  }

  predicate Listed(index: seq<Info>, id: string) { Find(index, id) < |index| }

  function Upsert(index: seq<Info>, info: Info): seq<Info> {
    var p := Find(index, info.id);
    if p < |index| then index[p := info] else index + [info]
  }

  function Terminals(index: seq<Info>): seq<Info> {
    if index == [] then []
    else Terminals(index[..|index|-1]) + if index[|index|-1].Terminal() then [index[|index|-1]] else []
  }

  /** The ids pruning removes: those of the first terminal entries beyond `max`. */
  function Surplus(index: seq<Info>, max: nat): seq<string> {
    var t := Terminals(index);
    if |t| <= max then [] else seq(|t| - max, i requires 0 <= i < |t| => t[i].id)
  }

  function Retain(index: seq<Info>, gone: seq<string>): seq<Info> {
    if index == [] then []
    else Retain(index[..|index|-1], gone) + if index[|index|-1].id in gone then [] else [index[|index|-1]]
  }

  function Pruned(index: seq<Info>, max: nat): seq<Info> { Retain(index, Surplus(index, max)) }

  /** Counted from the end: every unfinished entry and the last `max` terminal ones. */
  function KeepLast(index: seq<Info>, max: nat): seq<Info> {
    if index == [] then []
    else
      var rest, x := index[..|index|-1], index[|index|-1];
      if !x.Terminal() then KeepLast(rest, max) + [x]
      else if max == 0 then KeepLast(rest, 0)
      else KeepLast(rest, max - 1) + [x]
  }

  // ---------------------------------------------------------------------------
  // The store
  // ---------------------------------------------------------------------------

  function Without(disk: Disk, gone: seq<string>): Disk {
    if gone == [] then disk else Without(disk, gone[..|gone|-1]) - {gone[|gone|-1]}
  }

  lemma WithoutNone(disk: Disk, gone: seq<string>)
    ensures Without(disk, gone[..0]) == disk
  {
  }

  /** The index list a save prunes. */
  function SaveList(disk: Disk, e: Stored): seq<Info> {
    Upsert(LoadIndex(disk[e.info.id := Entry(e)]), e.info)
  }

  /** The disk once the entry is written and the first `n` surplus files are deleted. */
  function Interrupted(disk: Disk, max: nat, e: Stored, n: nat): Disk
    requires n <= |Surplus(SaveList(disk, e), max)|
  {
    Without(disk[e.info.id := Entry(e)], Surplus(SaveList(disk, e), max)[..n])
  }

  function AfterSave(disk: Disk, max: nat, e: Stored): Disk {
    var list := SaveList(disk, e);
    Interrupted(disk, max, e, |Surplus(list, max)|)[INDEX := Index(Pruned(list, max))]
  }

  function AfterRemove(disk: Disk, id: string): Disk {
    var rest := disk - {id};
    rest[INDEX := Index(Retain(LoadIndex(rest), [id]))]
  }

  class Store {
    const maxResults: nat
    var disk: Disk
    /** Every state the disk passes through, for crashes between two operations. */
    ghost var trail: seq<Disk>

    constructor (maxResults: nat)
      ensures this.maxResults == maxResults && disk == map[] && trail == []
    {
      this.maxResults := maxResults;
      disk, trail := map[], [];
    }

    method AtomicWrite(stem: string, c: Content)
      modifies this
      ensures disk == old(disk)[stem := c] && trail == old(trail) + [disk]
    {
      disk := disk[stem := c];
      trail := trail + [disk];
    }

    method RemoveFile(stem: string)
      modifies this
      ensures disk == old(disk) - {stem} && trail == old(trail) + [disk]
    {
      if stem in disk {
        disk := disk - {stem};
      }
      trail := trail + [disk];
    }

    method Save(e: Stored)
      modifies this
      ensures disk == AfterSave(old(disk), maxResults, e)
      ensures |trail| == |old(trail)| + |Surplus(SaveList(old(disk), e), maxResults)| + 2 && trail[|trail|-1] == disk
      ensures forall n :: 0 <= n <= |Surplus(SaveList(old(disk), e), maxResults)| ==>
                            trail[|old(trail)| + n] == Interrupted(old(disk), maxResults, e, n)
    {
      hide Surplus, Without, Upsert, LoadIndex, Pruned;
      AtomicWrite(e.info.id, Entry(e));
      ghost var written := disk;
      var index := LoadIndex(disk);
      index := ReplaceOrPush(index, e.info);
      ghost var gone := Surplus(index, maxResults);
      var kept := Prune(index);
      AtomicWrite(INDEX, Index(kept));
      assert gone[..|gone|] == gone;
      WithoutNone(written, gone);
    }

    method Remove(id: string)
      modifies this
      ensures disk == AfterRemove(old(disk), id)
    {
      RemoveFile(id);
      var index := LoadIndex(disk);
      var kept := RetainOthers(index, [id]);
      AtomicWrite(INDEX, Index(kept));
    }

    /** Deletes the files of surplus terminal entries and returns the list without them. */
    method Prune(index: seq<Info>) returns (kept: seq<Info>)
      modifies this
      ensures kept == Pruned(index, maxResults)
      ensures disk == Without(old(disk), Surplus(index, maxResults))
      ensures |trail| == |old(trail)| + |Surplus(index, maxResults)| && trail[..|old(trail)|] == old(trail)
      ensures forall n :: 0 < n <= |Surplus(index, maxResults)| ==>
                            trail[|old(trail)| + n - 1] == Without(old(disk), Surplus(index, maxResults)[..n])
    {
      var terminal := TerminalEntries(index);
      if |terminal| <= maxResults {
        RetainAll(index);
        return index;
      }
      var gone := FirstIds(terminal, |terminal| - maxResults);
      assert gone == Surplus(index, maxResults);
      hide Surplus;
      RemoveFiles(gone);
      kept := RetainOthers(index, gone);
    }

    method RemoveFiles(gone: seq<string>)
      modifies this
      ensures disk == Without(old(disk), gone)
      ensures |trail| == |old(trail)| + |gone| && trail[..|old(trail)|] == old(trail)
      ensures forall n :: 0 < n <= |gone| ==> trail[|old(trail)| + n - 1] == Without(old(disk), gone[..n])
    {
      for i := 0 to |gone|
        invariant disk == Without(old(disk), gone[..i])
        invariant |trail| == |old(trail)| + i && trail[..|old(trail)|] == old(trail)
        invariant forall n :: 0 < n <= i ==> trail[|old(trail)| + n - 1] == Without(old(disk), gone[..n])
      {
        assert gone[..i + 1][..i] == gone[..i];
        RemoveFile(gone[i]);
      }
      assert gone[..|gone|] == gone;
    }
  }

  method ReplaceOrPush(index: seq<Info>, info: Info) returns (list: seq<Info>)
    ensures list == Upsert(index, info)
  {
    var p := Position(index, info.id);
    if p < |index| {
      list := index[p := info];
    } else {
      list := index + [info];
    }
  }

  method TerminalEntries(index: seq<Info>) returns (terminal: seq<Info>)
    ensures terminal == Terminals(index)
  {
    terminal := [];
    for i := 0 to |index|
      invariant terminal == Terminals(index[..i])
    {
      assert index[..i + 1][..i] == index[..i];
      if index[i].Terminal() { terminal := terminal + [index[i]]; }
    }
    assert index[..|index|] == index;
  }

  method FirstIds(terminal: seq<Info>, count: nat) returns (ids: seq<string>)
    requires count <= |terminal|
    ensures |ids| == count && forall i :: 0 <= i < count ==> ids[i] == terminal[i].id
  {
    ids := [];
    var removed := 0;
    for k := 0 to |terminal|
      invariant removed == |ids| == if k < count then k else count
      invariant forall i :: 0 <= i < |ids| ==> ids[i] == terminal[i].id
    {
      if removed >= count { break; }
      ids := ids + [terminal[k].id];
      removed := removed + 1;
    }
  }

  method Position(index: seq<Info>, id: string) returns (p: nat)
    ensures p == Find(index, id)
  {
    p := 0;
    while p < |index|
      invariant p <= |index| && Find(index, id) >= p
    {
      if index[p].id == id { return; }
      p := p + 1;
    }
  }

  method RetainOthers(index: seq<Info>, gone: seq<string>) returns (kept: seq<Info>)
    ensures kept == Retain(index, gone)
  {
    kept := [];
    for i := 0 to |index|
      invariant kept == Retain(index[..i], gone)
    {
      assert index[..i + 1][..i] == index[..i];
      if index[i].id !in gone { kept := kept + [index[i]]; }
    }
    assert index[..|index|] == index;
  }

  lemma {:induction false} RetainAll(index: seq<Info>)
    ensures Retain(index, []) == index
  {
    if index != [] { RetainAll(index[..|index|-1]); }
  }

  // ---------------------------------------------------------------------------
  // Pruning keeps the last terminal entries
  // ---------------------------------------------------------------------------

  lemma {:induction false} TerminalsFrom(index: seq<Info>, k: nat)
    requires k < |Terminals(index)|
    ensures Terminals(index)[k] in index && Terminals(index)[k].Terminal()
  {
    var n := |index| - 1;
    if k < |Terminals(index[..n])| { TerminalsFrom(index[..n], k); }
  }

  lemma SurplusListed(index: seq<Info>, max: nat, id: string)
    requires id in Surplus(index, max)
    ensures exists x :: x in index && x.id == id
  {
    var k :| 0 <= k < |Surplus(index, max)| && Surplus(index, max)[k] == id;
    TerminalsFrom(index, k);
  }

  lemma {:induction false} RetainIgnores(index: seq<Info>, gone: seq<string>, more: seq<string>)
    requires forall x :: x in index ==> (x.id in gone <==> x.id in more)
    ensures Retain(index, gone) == Retain(index, more)
  {
    if index != [] {
      assert index[|index|-1] in index;
      RetainIgnores(index[..|index|-1], gone, more);
    }
  }

  lemma LastDiffers(index: seq<Info>, max: nat)
    requires Distinct(index) && index != []
    ensures Distinct(index[..|index|-1]) && forall x :: x in index[..|index|-1] ==> x.id != index[|index|-1].id
    ensures index[|index|-1].id !in Surplus(index[..|index|-1], max)
  {
    var n := |index| - 1;
    if index[n].id in Surplus(index[..n], max) {
      SurplusListed(index[..n], max, index[n].id);
    }
  }

  lemma SurplusStep(index: seq<Info>, max: nat)
    requires index != []
    ensures var rest, x := index[..|index|-1], index[|index|-1];
            Surplus(index, max) == if !x.Terminal() then Surplus(rest, max)
                                   else if max == 0 then Surplus(rest, 0) + [x.id]
                                   else Surplus(rest, max - 1)
  {
  }

  /** Removing the first surplus terminal entries is keeping the last `max` of them. */
  lemma {:induction false} PrunedKeepsLast(index: seq<Info>, max: nat)
    requires Distinct(index)
    ensures Pruned(index, max) == KeepLast(index, max)
  {
    if index != [] {
      hide Surplus, Distinct;
      var rest, x := index[..|index|-1], index[|index|-1];
      SurplusStep(index, max);
      if !x.Terminal() {
        LastDiffers(index, max);
        PrunedKeepsLast(rest, max);
      } else if max > 0 {
        LastDiffers(index, max - 1);
        PrunedKeepsLast(rest, max - 1);
      } else {
        LastDiffers(index, 0);
        PrunedKeepsLast(rest, 0);
        RetainIgnores(rest, Surplus(index, 0), Surplus(rest, 0));
      }
    }
  }

  lemma {:induction false} KeepLastBound(index: seq<Info>, max: nat)
    ensures |Terminals(KeepLast(index, max))| <= max
  {
    if index != [] {
      var rest, x := index[..|index|-1], index[|index|-1];
      var m := if x.Terminal() && max > 0 then max - 1 else max;
      KeepLastBound(rest, m);
      if !(x.Terminal() && max == 0) { assert KeepLast(index, max)[..|KeepLast(rest, m)|] == KeepLast(rest, m); }
    }
  }

  lemma {:induction false} RetainMember(index: seq<Info>, gone: seq<string>, x: Info)
    ensures x in Retain(index, gone) <==> x in index && x.id !in gone
  {
    if index != [] {
      RetainMember(index[..|index|-1], gone, x);
      assert index == index[..|index|-1] + [index[|index|-1]];
    }
  }

  /** An entry survives pruning exactly when it is unfinished or fewer than `max` finished ones follow it. */
  lemma {:induction false} KeepLastMember(index: seq<Info>, max: nat, p: nat)
    requires Distinct(index) && p < |index|
    ensures index[p] in KeepLast(index, max) <==> !index[p].Terminal() || |Terminals(index[p + 1..])| < max
  {
    var n := |index| - 1;
    var rest, x := index[..n], index[n];
    if p == n {
      KeepLastFrom(rest, 0, x);
      assert Terminals(index[n + 1..]) == [];
    } else {
      assert index[p + 1..][..n - p - 1] == rest[p + 1..];
      assert index[p] != x;
      var m := if x.Terminal() && max > 0 then max - 1 else max;
      KeepLastMember(rest, m, p);
    }
  }

  lemma {:induction false} KeepLastFrom(index: seq<Info>, max: nat, x: Info)
    ensures x in KeepLast(index, max) ==> x in index
  {
    if index != [] {
      var rest, y := index[..|index|-1], index[|index|-1];
      KeepLastFrom(rest, if y.Terminal() && max > 0 then max - 1 else max, x);
    }
  }

  // ---------------------------------------------------------------------------
  // The index agrees with the files
  // ---------------------------------------------------------------------------

  predicate Backed(disk: Disk, x: Info) {
    x.id in disk && disk[x.id].Entry? && disk[x.id].entry.info == x
  }

  predicate Agrees(disk: Disk, max: nat) {
    var index := LoadIndex(disk);
    && (INDEX in disk ==> disk[INDEX].Index?)
    && Distinct(index)
    && |Terminals(index)| <= max
    && (forall x :: x in index ==> Backed(disk, x))
    && (forall id :: id in disk && id != INDEX ==> Listed(index, id))
  }

  lemma ListedIff(index: seq<Info>, x: Info)
    requires x in index
    ensures Listed(index, x.id)
  {
  }

  lemma {:induction false} WithoutMember(disk: Disk, gone: seq<string>, id: string)
    ensures id in Without(disk, gone) <==> id in disk && id !in gone
    ensures id in Without(disk, gone) ==> Without(disk, gone)[id] == disk[id]
  {
    if gone != [] {
      WithoutMember(disk, gone[..|gone|-1], id);
      assert gone == gone[..|gone|-1] + [gone[|gone|-1]];
    }
  }

  lemma UpsertMember(index: seq<Info>, info: Info, x: Info)
    requires Distinct(index)
    ensures x in Upsert(index, info) <==> x == info || (x in index && x.id != info.id)
  {
    var p, list := Find(index, info.id), Upsert(index, info);
    assert list[p] == info;
    if x in index && x.id != info.id {
      var i :| 0 <= i < |index| && index[i] == x;
      assert list[i] == x;
    }
    if x in list && x != info {
      var i :| 0 <= i < |list| && list[i] == x;
      assert index[i] == x;
    }
  }

  lemma UpsertDistinct(index: seq<Info>, info: Info)
    requires Distinct(index)
    ensures Distinct(Upsert(index, info))
  {
  }

  lemma {:induction false} RetainDistinct(index: seq<Info>, gone: seq<string>)
    requires Distinct(index)
    ensures Distinct(Retain(index, gone))
  {
    if index != [] {
      var rest, x := index[..|index|-1], index[|index|-1];
      RetainDistinct(rest, gone);
      forall y | y in Retain(rest, gone)
        ensures y.id != x.id
      {
        RetainMember(rest, gone, y);
      }
    }
  }

  /** A disk left by writing an index over files that back exactly its entries agrees. */
  lemma IndexWritten(disk: Disk, list: seq<Info>, max: nat)
    requires Distinct(list) && |Terminals(list)| <= max
    requires forall x :: x in list ==> x.id != INDEX && Backed(disk, x)
    requires forall id :: id in disk && id != INDEX ==> Listed(list, id)
    ensures Agrees(disk[INDEX := Index(list)], max)
  {
    var d := disk[INDEX := Index(list)];
    assert LoadIndex(d) == list;
  }

  lemma SavedListed(disk: Disk, max: nat, e: Stored, id: string)
    requires Agrees(disk, max) && e.info.id != INDEX
    requires id in disk[e.info.id := Entry(e)] && id != INDEX && id !in Surplus(SaveList(disk, e), max)
    ensures Listed(Pruned(SaveList(disk, e), max), id)
  {
    var index, list := LoadIndex(disk), SaveList(disk, e);
    assert LoadIndex(disk[e.info.id := Entry(e)]) == index;
    var x := if id == e.info.id then e.info else index[Find(index, id)];
    UpsertMember(index, e.info, x);
    hide Surplus, SaveList;
    RetainMember(list, Surplus(list, max), x);
    ListedIff(Pruned(list, max), x);
  }

  lemma SavedBacked(disk: Disk, max: nat, e: Stored, x: Info)
    requires Agrees(disk, max) && e.info.id != INDEX && x in Pruned(SaveList(disk, e), max)
    ensures x.id != INDEX && Backed(Interrupted(disk, max, e, |Surplus(SaveList(disk, e), max)|), x)
  {
    var index, list := LoadIndex(disk), SaveList(disk, e);
    assert LoadIndex(disk[e.info.id := Entry(e)]) == index;
    var gone := Surplus(list, max);
    UpsertMember(index, e.info, x);
    hide Surplus;
    RetainMember(list, gone, x);
    assert gone[..|gone|] == gone;
    WithoutMember(disk[e.info.id := Entry(e)], gone, x.id);
  }

  lemma SavedList(disk: Disk, max: nat, e: Stored)
    requires Agrees(disk, max) && e.info.id != INDEX
    ensures Distinct(Pruned(SaveList(disk, e), max))
    ensures |Terminals(Pruned(SaveList(disk, e), max))| <= max
  {
    var list := SaveList(disk, e);
    assert LoadIndex(disk[e.info.id := Entry(e)]) == LoadIndex(disk);
    UpsertDistinct(LoadIndex(disk), e.info);
    hide Surplus, SaveList;
    RetainDistinct(list, Surplus(list, max));
    PrunedKeepsLast(list, max);
    KeepLastBound(list, max);
  }

  lemma SaveKeepsAgreement(disk: Disk, max: nat, e: Stored)
    requires Agrees(disk, max) && e.info.id != INDEX
    ensures Agrees(AfterSave(disk, max, e), max)
  {
    hide Agrees, Surplus, SaveList, LoadIndex, Find, Without, Terminals, Distinct, Backed, Retain, Pruned, Listed;
    var list := SaveList(disk, e);
    var gone, kept := Surplus(list, max), Pruned(list, max);
    var d, written := Interrupted(disk, max, e, |gone|), disk[e.info.id := Entry(e)];
    SavedList(disk, max, e);
    forall x | x in kept
      ensures x.id != INDEX && Backed(d, x)
    {
      SavedBacked(disk, max, e, x);
    }
    assert gone[..|gone|] == gone;
    assert d == Without(written, gone);
    hide Interrupted;
    forall id | id in d && id != INDEX
      ensures Listed(kept, id)
    {
      WithoutMember(written, gone, id);
      SavedListed(disk, max, e, id);
    }
    IndexWritten(d, kept, max);
  }

  lemma NoFiles(disk: Disk, max: nat)
    requires Agrees(disk, max)
    ensures LoadIndex(disk) == [] <==> forall id :: id in disk ==> id == INDEX
  {
    if LoadIndex(disk) != [] {
      var x := LoadIndex(disk)[0];
      assert x in LoadIndex(disk);
      assert Backed(disk, x);
    }
  }

  lemma OneTerminal(x: Info)
    ensures Terminals([x]) == if x.Terminal() then [x] else []
  {
    assert [x][..0] == [] && Terminals([]) == [];
  }

  lemma OneRetained(x: Info, gone: seq<string>)
    ensures Retain([x], gone) == if x.id in gone then [] else [x]
  {
    assert [x][..0] == [] && Retain([], gone) == [];
  }

  lemma OneSurplus(x: Info, max: nat)
    ensures Surplus([x], max) == if x.Terminal() && max == 0 then [x.id] else []
  {
    OneTerminal(x);
    hide Terminals;
  }

  lemma IndexIdList(disk: Disk, max: nat, e: Stored)
    requires e.info.id == INDEX
    ensures SaveList(disk, e) == [e.info]
    ensures Pruned([e.info], max) == if e.info.Terminal() && max == 0 then [] else [e.info]
  {
    OneSurplus(e.info, max);
    OneRetained(e.info, Surplus([e.info], max));
    hide Surplus, Retain;
  }

  lemma IndexIdDisk(disk: Disk, max: nat, e: Stored)
    requires e.info.id == INDEX
    ensures var d := AfterSave(disk, max, e);
            && INDEX in d && d[INDEX] == Index(if e.info.Terminal() && max == 0 then [] else [e.info])
            && forall id :: id != INDEX ==> (id in d <==> id in disk)
  {
    IndexIdList(disk, max, e);
    OneSurplus(e.info, max);
    var gone := Surplus([e.info], max);
    hide SaveList, Surplus, Pruned;
    assert gone[..|gone|] == gone;
    forall id | id != INDEX
      ensures id in AfterSave(disk, max, e) <==> id in disk
    {
      WithoutMember(disk[INDEX := Entry(e)], gone, id);
    }
  }

  lemma IndexIdSave(disk: Disk, max: nat, e: Stored)
    requires Agrees(disk, max) && e.info.id == INDEX
    ensures Agrees(AfterSave(disk, max, e), max) <==> e.info.Terminal() && max == 0 && LoadIndex(disk) == []
  {
    IndexIdDisk(disk, max, e);
    NoFiles(disk, max);
    hide AfterSave;
    var d := AfterSave(disk, max, e);
    if !(e.info.Terminal() && max == 0) {
      assert e.info in LoadIndex(d) && !Backed(d, e.info);
    } else if LoadIndex(disk) != [] {
      var id :| id in disk && id != INDEX;
      assert !Listed([], id);
    }
  }

  /** A save keeps index and files in agreement exactly when its id does not name the index file. */
  lemma SaveAgreesIff(disk: Disk, max: nat, e: Stored)
    requires Agrees(disk, max)
    ensures Agrees(AfterSave(disk, max, e), max) <==>
            e.info.id != INDEX || (e.info.Terminal() && max == 0 && LoadIndex(disk) == [])
  {
    hide Agrees, AfterSave, LoadIndex;
    if e.info.id == INDEX { IndexIdSave(disk, max, e); } else { SaveKeepsAgreement(disk, max, e); }
  }

  lemma {:induction false} RetainFewer(index: seq<Info>, gone: seq<string>)
    ensures |Terminals(Retain(index, gone))| <= |Terminals(index)|
  {
    if index != [] {
      var rest, x := index[..|index|-1], index[|index|-1];
      RetainFewer(rest, gone);
      if x.id in gone {
        assert Retain(index, gone) == Retain(rest, gone);
      } else {
        assert Retain(index, gone)[..|Retain(rest, gone)|] == Retain(rest, gone);
      }
    }
  }

  lemma RemoveKeepsAgreement(disk: Disk, max: nat, id: string)
    requires Agrees(disk, max) && id != INDEX
    ensures Agrees(AfterRemove(disk, id), max)
  {
    var rest, index := disk - {id}, LoadIndex(disk);
    assert LoadIndex(rest) == index;
    var kept := Retain(index, [id]);
    RetainDistinct(index, [id]);
    RetainFewer(index, [id]);
    forall x | x in kept
      ensures x.id != INDEX && Backed(rest, x)
    {
      RetainMember(index, [id], x);
      assert Backed(disk, x);
    }
    forall k | k in rest && k != INDEX
      ensures Listed(kept, k)
    {
      assert Listed(index, k);
      var x := index[Find(index, k)];
      RetainMember(index, [id], x);
      ListedIff(kept, x);
    }
    hide Agrees, Retain, Distinct, Terminals;
    IndexWritten(rest, kept, max);
  }

  /** Likewise for a removal: naming the index file orphans every entry there is. */
  lemma RemoveAgreesIff(disk: Disk, max: nat, id: string)
    requires Agrees(disk, max)
    ensures Agrees(AfterRemove(disk, id), max) <==> id != INDEX || LoadIndex(disk) == []
  {
    if id != INDEX {
      RemoveKeepsAgreement(disk, max, id);
    } else {
      NoFiles(disk, max);
      var d := AfterRemove(disk, id);
      assert LoadIndex(d) == [];
      if LoadIndex(disk) != [] {
        var k :| k in disk && k != INDEX;
        assert k in d && !Listed([], k);
      } else {
        assert forall k :: k in d ==> k == INDEX;
      }
    }
  }

  datatype Operation = Saving(entry: Stored) | Removing(id: string)

  function Run(max: nat, ops: seq<Operation>): Disk {
    if ops == [] then map[]
    else
      var disk := Run(max, ops[..|ops|-1]);
      match ops[|ops|-1]
      case Saving(e) => AfterSave(disk, max, e)
      case Removing(id) => AfterRemove(disk, id)
  }

  predicate OrdinaryIds(ops: seq<Operation>) {
    forall i :: 0 <= i < |ops| ==> (if ops[i].Saving? then ops[i].entry.info.id else ops[i].id) != INDEX
  }

  /** Whatever is saved and removed, the index and the files agree. */
  lemma {:induction false} RunAgrees(max: nat, ops: seq<Operation>)
    requires OrdinaryIds(ops)
    ensures Agrees(Run(max, ops), max)
  {
    if ops != [] {
      RunAgrees(max, ops[..|ops|-1]);
      var disk := Run(max, ops[..|ops|-1]);
      hide Agrees, AfterSave, AfterRemove;
      match ops[|ops|-1]
      case Saving(e) => SaveKeepsAgreement(disk, max, e);
      case Removing(id) => RemoveKeepsAgreement(disk, max, id);
    }
  }

  // ---------------------------------------------------------------------------
  // What survives a save, and a crash in the middle of one
  // ---------------------------------------------------------------------------

  /** The index entries positioned after `id`. */
  function Following(index: seq<Info>, id: string): seq<Info> {
    if Listed(index, id) then index[Find(index, id) + 1..] else []
  }

  lemma SavedPosition(index: seq<Info>, info: Info)
    ensures var list, p := Upsert(index, info), Find(index, info.id);
            && p < |list| && list[p] == info && list[..p] == index[..p] && list[p + 1..] == Following(index, info.id)
  {
  }

  /**
   A saved entry reads back unless the save pruned it. Position counts, not time: a test that
   finishes after `max` later-listed ones have finished loses its result as it is saved.
   */
  lemma SaveThenLoad(disk: Disk, max: nat, e: Stored)
    requires Agrees(disk, max) && e.info.id != INDEX
    ensures LoadEntry(AfterSave(disk, max, e), e.info.id) ==
            if !e.info.Terminal() || |Terminals(Following(LoadIndex(disk), e.info.id))| < max then Some(e) else None
  {
    SavedSurvives(disk, max, e);
    hide Agrees, Surplus, SaveList, Following, Pruned, LoadIndex, Terminals, Without;
    var gone := Surplus(SaveList(disk, e), max);
    assert gone[..|gone|] == gone;
    WithoutMember(disk[e.info.id := Entry(e)], gone, e.info.id);
  }

  lemma SavedSurvives(disk: Disk, max: nat, e: Stored)
    requires Agrees(disk, max) && e.info.id != INDEX
    ensures e.info.id !in Surplus(SaveList(disk, e), max) <==>
            !e.info.Terminal() || |Terminals(Following(LoadIndex(disk), e.info.id))| < max
  {
    SaveListed(disk, max, e);
    SurvivesPruning(LoadIndex(disk), e.info, max);
  }

  lemma SaveListed(disk: Disk, max: nat, e: Stored)
    requires Agrees(disk, max) && e.info.id != INDEX
    ensures SaveList(disk, e) == Upsert(LoadIndex(disk), e.info) && Distinct(LoadIndex(disk)) && Distinct(SaveList(disk, e))
  {
    assert LoadIndex(disk[e.info.id := Entry(e)]) == LoadIndex(disk);
    hide Upsert;
    UpsertDistinct(LoadIndex(disk), e.info);
  }

  lemma SurvivesPruning(index: seq<Info>, info: Info, max: nat)
    requires Distinct(Upsert(index, info))
    ensures info.id !in Surplus(Upsert(index, info), max) <==>
            !info.Terminal() || |Terminals(Following(index, info.id))| < max
  {
    hide *;
    var list, p := Upsert(index, info), Find(index, info.id);
    SavedPosition(index, info);
    PrunedKeepsLast(list, max);
    KeepLastMember(list, max, p);
    PrunedMember(list, max, info);
  }

  lemma PrunedMember(list: seq<Info>, max: nat, x: Info)
    ensures x in Pruned(list, max) <==> x in list && x.id !in Surplus(list, max)
  {
    hide Surplus, Retain;
    RetainMember(list, Surplus(list, max), x);
  }

  lemma {:induction false} RetainOthersAll(index: seq<Info>, id: string)
    requires forall i :: 0 <= i < |index| ==> index[i].id != id
    ensures Retain(index, [id]) == index
  {
    if index != [] {
      RetainOthersAll(index[..|index|-1], id);
      assert index == index[..|index|-1] + [index[|index|-1]];
    }
  }

  lemma {:induction false} RetainConcat(a: seq<Info>, b: seq<Info>, gone: seq<string>)
    ensures Retain(a + b, gone) == Retain(a, gone) + Retain(b, gone)
  {
    if b == [] {
      assert a + b == a;
    } else {
      assert (a + b)[..|a + b|-1] == a + b[..|b|-1];
      RetainConcat(a, b[..|b|-1], gone);
    }
  }

  lemma RetainMiddle(a: seq<Info>, x: Info, b: seq<Info>)
    requires forall i :: 0 <= i < |a| ==> a[i].id != x.id
    requires forall i :: 0 <= i < |b| ==> b[i].id != x.id
    ensures Retain(a + [x] + b, [x.id]) == a + b
  {
    hide *;
    var gone := [x.id];
    RetainConcat(a + [x], b, gone);
    RetainConcat(a, [x], gone);
    OneRetained(x, gone);
    RetainOthersAll(a, x.id);
    RetainOthersAll(b, x.id);
    assert x.id in gone;
    assert Retain(a + [x], gone) == a + [] == a;
  }

  /** Left out of a list of distinct ids, one id leaves the rest in order. */
  lemma RetainOne(index: seq<Info>, p: nat)
    requires Distinct(index) && p < |index|
    ensures Retain(index, [index[p].id]) == index[..p] + index[p + 1..]
  {
    hide Retain;
    var a, x, b := index[..p], index[p], index[p + 1..];
    forall i | 0 <= i < |b| ensures b[i].id != x.id { assert b[i] == index[p + 1 + i]; }
    RetainMiddle(a, x, b);
    assert a + [x] + b == index;
  }

  lemma RemovedIndex(disk: Disk, id: string)
    requires id != INDEX && Distinct(LoadIndex(disk))
    ensures var index, after := LoadIndex(disk), LoadIndex(AfterRemove(disk, id));
            && !Listed(after, id)
            && after == if Listed(index, id) then index[..Find(index, id)] + index[Find(index, id) + 1..] else index
  {
    var index := LoadIndex(disk);
    assert LoadIndex(disk - {id}) == index;
    assert LoadIndex(AfterRemove(disk, id)) == Retain(index, [id]);
    NotRetained(index, id);
    hide Retain, AfterRemove, LoadIndex;
    var p := Find(index, id);
    if p < |index| { RetainOne(index, p); } else { RetainOthersAll(index, id); }
  }

  lemma NotRetained(index: seq<Info>, id: string)
    ensures !Listed(Retain(index, [id]), id)
  {
    hide Retain;
    var kept := Retain(index, [id]);
    var p := Find(kept, id);
    if p < |kept| { RetainMember(index, [id], kept[p]); }
  }

  lemma RemovedEntry(disk: Disk, max: nat, id: string, k: string)
    requires Agrees(disk, max) && id != INDEX
    ensures LoadEntry(AfterRemove(disk, id), k) == if k == id then None else LoadEntry(disk, k)
  {
    hide Retain, Terminals, Distinct, Listed, Backed;
  }

  /**
   A removal takes away the one entry and its place in the index; every other entry reads as
   before and stays listed in its order.
   */
  lemma RemoveLeaves(disk: Disk, max: nat, id: string)
    requires Agrees(disk, max) && id != INDEX
    ensures var index, after := LoadIndex(disk), AfterRemove(disk, id);
            && LoadEntry(after, id) == None && !Listed(LoadIndex(after), id)
            && (forall k :: k != id ==> LoadEntry(after, k) == LoadEntry(disk, k))
            && LoadIndex(after) ==
               if Listed(index, id) then index[..Find(index, id)] + index[Find(index, id) + 1..] else index
  {
    hide AfterRemove, LoadEntry, LoadIndex, Find, Listed, Terminals, Backed;
    forall k ensures LoadEntry(AfterRemove(disk, id), k) == if k == id then None else LoadEntry(disk, k) {
      RemovedEntry(disk, max, id, k);
    }
    RemovedIndex(disk, id);
  }

  lemma {:induction false} KeepLastOrder(index: seq<Info>, max: nat)
    ensures Subsequence(KeepLast(index, max), index)
  {
    if index != [] {
      var n := |index| - 1;
      KeepLastOrder(index[..n], max);
      if index[n].Terminal() && max > 0 { KeepLastOrder(index[..n], max - 1); }
    }
  }

  /** The index after a save: the saved entry in its old place or at the end, then the list pruned, in order. */
  lemma SavedIndex(disk: Disk, max: nat, e: Stored)
    requires Agrees(disk, max) && e.info.id != INDEX
    ensures var list := Upsert(LoadIndex(disk), e.info);
            LoadIndex(AfterSave(disk, max, e)) == KeepLast(list, max) && Subsequence(KeepLast(list, max), list)
  {
    SaveListed(disk, max, e);
    hide Agrees, KeepLast, Pruned, Subsequence, Interrupted, Distinct;
    var list := SaveList(disk, e);
    KeepLastOrder(list, max);
    PrunedKeepsLast(list, max);
  }

  lemma SavedEntry(disk: Disk, max: nat, e: Stored, id: string)
    requires id != e.info.id
    ensures LoadEntry(AfterSave(disk, max, e), id) ==
            if id != INDEX && id in disk && id !in Surplus(SaveList(disk, e), max) then LoadEntry(disk, id) else None
  {
    var gone := Surplus(SaveList(disk, e), max);
    hide Surplus, SaveList, Pruned;
    assert gone[..|gone|] == gone;
    WithoutMember(disk[e.info.id := Entry(e)], gone, id);
  }

  lemma Survives(list: seq<Info>, max: nat, q: nat)
    requires Distinct(list) && q < |list|
    ensures list[q].id !in Surplus(list, max) <==> !list[q].Terminal() || |Terminals(list[q + 1..])| < max
  {
    hide *;
    PrunedKeepsLast(list, max);
    KeepLastMember(list, max, q);
    PrunedMember(list, max, list[q]);
  }

  lemma ListedAt(list: seq<Info>, id: string)
    ensures Listed(list, id) <==> Find(list, id) < |list|
    ensures Listed(list, id) ==> list[Find(list, id)].id == id
  {
    hide Find;
  }

  /**
   What a save does to any other entry: it reads as before, unless the entry is finished and as
   many finished ones as the store keeps are listed after it, when it is gone.
   */
  lemma SaveLeaves(disk: Disk, max: nat, e: Stored, id: string)
    requires Agrees(disk, max) && e.info.id != INDEX && id != e.info.id
    ensures var list := Upsert(LoadIndex(disk), e.info);
            var q := Find(list, id);
            LoadEntry(AfterSave(disk, max, e), id) ==
            if q < |list| && (!list[q].Terminal() || |Terminals(list[q + 1..])| < max) then LoadEntry(disk, id) else None
  {
    hide *;
    SaveListed(disk, max, e);
    ListedElsewhere(disk, max, e, id);
    SavedEntry(disk, max, e, id);
    var list := SaveList(disk, e);
    var q := Find(list, id);
    ListedAt(list, id);
    if q < |list| { Survives(list, max, q); }
  }

  lemma ListedElsewhere(disk: Disk, max: nat, e: Stored, id: string)
    requires Agrees(disk, max) && e.info.id != INDEX && id != e.info.id
    ensures id != INDEX ==> (id in disk <==> Listed(SaveList(disk, e), id))
    ensures id == INDEX ==> !Listed(SaveList(disk, e), id)
  {
    SaveListed(disk, max, e);
    var index, list := LoadIndex(disk), SaveList(disk, e);
    hide SaveList, Upsert, Distinct, Terminals;
    if Listed(list, id) {
      var x := list[Find(list, id)];
      UpsertMember(index, e.info, x);
      assert Backed(disk, x);
    }
    if id in disk && id != INDEX {
      var x := index[Find(index, id)];
      UpsertMember(index, e.info, x);
      ListedIff(list, x);
    }
  }

  /** One test starts, then each of `others` is saved as it finishes. */
  function Overtaken(late: Stored, others: seq<Stored>): seq<Operation> {
    if others == [] then [Saving(late)]
    else Overtaken(late, others[..|others|-1]) + [Saving(others[|others|-1])]
  }

  function Infos(late: Stored, others: seq<Stored>): (index: seq<Info>)
    ensures |index| == |others| + 1 && index[0] == late.info
    ensures forall i :: 0 <= i < |others| ==> index[i + 1] == others[i].info
  {
    [late.info] + seq(|others|, i requires 0 <= i < |others| => others[i].info)
  }

  predicate Overtaking(late: Stored, others: seq<Stored>) {
    && !late.info.Terminal() && late.info.id != INDEX && Distinct(Infos(late, others))
    && forall e :: e in others ==> e.info.Terminal() && e.info.id != INDEX
  }

  lemma {:induction false} TerminalsAll(index: seq<Info>)
    requires forall i :: 0 <= i < |index| ==> index[i].Terminal()
    ensures Terminals(index) == index
  {
    if index != [] {
      var n := |index| - 1;
      TerminalsAll(index[..n]);
      assert index == index[..n] + [index[n]];
    }
  }

  lemma {:induction false} TerminalsAfter(x: Info, index: seq<Info>)
    requires !x.Terminal()
    ensures Terminals([x] + index) == Terminals(index)
  {
    var list := [x] + index;
    if index == [] {
      assert list[..0] == [];
    } else {
      TerminalsAfter(x, index[..|index|-1]);
      assert list[..|list|-1] == [x] + index[..|index|-1];
    }
  }

  lemma OvertakenTerminals(late: Stored, others: seq<Stored>)
    requires Overtaking(late, others)
    ensures |Terminals(Infos(late, others))| == |Terminals(Infos(late, others)[1..])| == |others|
  {
    var index := Infos(late, others);
    assert index == [index[0]] + index[1..];
    TerminalsAfter(index[0], index[1..]);
    forall i | 0 <= i < |index[1..]| ensures index[1..][i].Terminal() {
      assert index[1..][i] == others[i].info && others[i] in others;
    }
    TerminalsAll(index[1..]);
  }

  /** A save that appends and leaves room prunes nothing. */
  lemma Appended(disk: Disk, max: nat, e: Stored)
    requires e.info.id != INDEX && !Listed(LoadIndex(disk), e.info.id)
    requires |Terminals(LoadIndex(disk) + [e.info])| <= max
    ensures LoadIndex(AfterSave(disk, max, e)) == LoadIndex(disk) + [e.info]
  {
    assert LoadIndex(disk[e.info.id := Entry(e)]) == LoadIndex(disk);
    hide Terminals, Retain;
    RetainAll(LoadIndex(disk) + [e.info]);
  }

  lemma OvertakenFront(late: Stored, others: seq<Stored>)
    requires Overtaking(late, others) && others != []
    ensures Overtaking(late, others[..|others|-1])
    ensures Infos(late, others) == Infos(late, others[..|others|-1]) + [others[|others|-1].info]
    ensures !Listed(Infos(late, others[..|others|-1]), others[|others|-1].info.id)
    ensures others[|others|-1].info.id != INDEX
  {
    hide Find;
    var n := |others| - 1;
    var all, front := Infos(late, others), Infos(late, others[..n]);
    assert all == front + [others[n].info];
    assert others[n] in others && all[n + 1] == others[n].info;
    forall i, j | 0 <= i < j < |front| ensures front[i].id != front[j].id {
      assert all[i] == front[i] && all[j] == front[j];
    }
    forall i | 0 <= i < |front| ensures front[i].id != others[n].info.id {
      assert all[i] == front[i];
    }
  }

  lemma {:induction false} OvertakenIndex(max: nat, late: Stored, others: seq<Stored>)
    requires Overtaking(late, others) && |others| <= max
    ensures LoadIndex(Run(max, Overtaken(late, others))) == Infos(late, others)
    ensures Agrees(Run(max, Overtaken(late, others)), max)
  {
    hide *;
    OvertakenTerminals(late, others);
    if others == [] {
      OvertakenFirst(max, late);
    } else {
      var n := |others| - 1;
      OvertakenFront(late, others);
      OvertakenIndex(max, late, others[..n]);
      OvertakenLast(max, late, others);
      var disk := Run(max, Overtaken(late, others[..n]));
      Appended(disk, max, others[n]);
      SaveKeepsAgreement(disk, max, others[n]);
    }
  }

  lemma RunLast(max: nat, ops: seq<Operation>, e: Stored)
    ensures Run(max, ops + [Saving(e)]) == AfterSave(Run(max, ops), max, e)
  {
    hide AfterSave;
    assert (ops + [Saving(e)])[..|ops|] == ops;
  }

  lemma OvertakenFirst(max: nat, late: Stored)
    requires Overtaking(late, [])
    ensures LoadIndex(Run(max, Overtaken(late, []))) == Infos(late, [])
    ensures Agrees(Run(max, Overtaken(late, [])), max)
  {
    OvertakenTerminals(late, []);
    assert Run(max, []) == map[] && LoadIndex(map[]) == [];
    assert [] + [Saving(late)] == [Saving(late)] && [] + [late.info] == Infos(late, []);
    assert !Listed([], late.info.id);
    hide Terminals, AfterSave, Agrees, Infos;
    RunAgrees(max, [Saving(late)]);
    RunLast(max, [], late);
    Appended(map[], max, late);
  }

  lemma OvertakenLast(max: nat, late: Stored, others: seq<Stored>)
    requires others != []
    ensures var n := |others| - 1;
            Run(max, Overtaken(late, others)) == AfterSave(Run(max, Overtaken(late, others[..n])), max, others[n])
  {
    var n := |others| - 1;
    hide AfterSave, Run;
    RunLast(max, Overtaken(late, others[..n]), others[n]);
  }

  /**
   Whatever the limit: once as many tests have finished since a test was first saved as the store
   keeps, finishing that test deletes its result as it is saved.
   */
  lemma LateFinisherLost(max: nat, late: Stored, others: seq<Stored>, finished: Stored)
    requires Overtaking(late, others) && |others| == max
    requires finished.info.id == late.info.id && finished.info.Terminal()
    ensures LoadEntry(Run(max, Overtaken(late, others) + [Saving(finished)]), late.info.id) == None
  {
    var ops := Overtaken(late, others);
    hide Run, Overtaken, AfterSave, Terminals, Agrees, LoadEntry;
    OvertakenIndex(max, late, others);
    OvertakenTerminals(late, others);
    var index := LoadIndex(Run(max, ops));
    assert Find(index, late.info.id) == 0 && Following(index, late.info.id) == index[1..];
    RunLast(max, ops, finished);
    SaveThenLoad(Run(max, ops), max, finished);
  }

  lemma SurplusFinished(index: seq<Info>, max: nat, x: Info)
    requires Distinct(index) && x in index && x.id in Surplus(index, max)
    ensures x.Terminal()
  {
    var k :| 0 <= k < |Surplus(index, max)| && Surplus(index, max)[k] == x.id;
    TerminalsFrom(index, k);
  }

  /** An unfinished test is still listed and readable after, and at every point during, another's save. */
  lemma UnfinishedKept(disk: Disk, max: nat, e: Stored, x: Info, n: nat)
    requires Agrees(disk, max) && e.info.id != INDEX
    requires x in LoadIndex(disk) && !x.Terminal() && x.id != e.info.id
    requires n <= |Surplus(SaveList(disk, e), max)|
    ensures LoadEntry(Interrupted(disk, max, e, n), x.id) == LoadEntry(disk, x.id)
    ensures LoadEntry(AfterSave(disk, max, e), x.id) == LoadEntry(disk, x.id)
    ensures x in LoadIndex(AfterSave(disk, max, e))
  {
    var index, list := LoadIndex(disk), SaveList(disk, e);
    assert LoadIndex(disk[e.info.id := Entry(e)]) == index;
    UpsertDistinct(index, e.info);
    UpsertMember(index, e.info, x);
    assert Backed(disk, x);
    hide Agrees, Upsert, Surplus, SaveList, Distinct;
    var gone := Surplus(list, max);
    if x.id in gone { SurplusFinished(list, max, x); }
    WithoutMember(disk[e.info.id := Entry(e)], gone[..n], x.id);
    WithoutMember(disk[e.info.id := Entry(e)], gone[..|gone|], x.id);
    RetainMember(list, gone, x);
  }

  lemma SurplusNotIndex(disk: Disk, max: nat, e: Stored)
    requires Agrees(disk, max) && e.info.id != INDEX
    ensures INDEX !in Surplus(SaveList(disk, e), max)
  {
    var index, list := LoadIndex(disk), SaveList(disk, e);
    assert LoadIndex(disk[e.info.id := Entry(e)]) == index;
    forall x | x in list
      ensures x.id != INDEX
    {
      UpsertMember(index, e.info, x);
      assert x != e.info ==> Backed(disk, x);
    }
    if INDEX in Surplus(list, max) {
      SurplusListed(list, max, INDEX);
    }
  }

  lemma WithoutTwice(disk: Disk, gone: seq<string>, n: nat, id: string, c: Content)
    requires n <= |gone|
    ensures Without(Without(disk[id := c], gone[..n])[id := c], gone) == Without(disk[id := c], gone)
  {
    var once, twice := Without(disk[id := c], gone), Without(Without(disk[id := c], gone[..n])[id := c], gone);
    forall k: string
      ensures k in twice <==> k in once
      ensures k in once ==> twice[k] == once[k]
    {
      WithoutMember(disk[id := c], gone, k);
      WithoutMember(disk[id := c], gone[..n], k);
      WithoutMember(Without(disk[id := c], gone[..n])[id := c], gone, k);
    }
  }

  lemma SameList(disk: Disk, d: Disk, e: Stored)
    requires e.info.id != INDEX && LoadIndex(d) == LoadIndex(disk)
    ensures SaveList(d, e) == SaveList(disk, e)
  {
    hide Upsert;
    assert LoadIndex(d[e.info.id := Entry(e)]) == LoadIndex(d);
    assert LoadIndex(disk[e.info.id := Entry(e)]) == LoadIndex(disk);
  }

  /** A save cut short anywhere before its index is written is completed exactly by saving again. */
  lemma RedoAfterCrash(disk: Disk, max: nat, e: Stored, n: nat)
    requires Agrees(disk, max) && e.info.id != INDEX
    requires n <= |Surplus(SaveList(disk, e), max)|
    ensures LoadIndex(Interrupted(disk, max, e, n)) == LoadIndex(disk)
    ensures AfterSave(Interrupted(disk, max, e, n), max, e) == AfterSave(disk, max, e)
  {
    var list, d := SaveList(disk, e), Interrupted(disk, max, e, n);
    var gone := Surplus(list, max);
    SurplusNotIndex(disk, max, e);
    assert LoadIndex(d) == LoadIndex(disk) by {
      hide Agrees, Surplus, SaveList, Without;
      WithoutMember(disk[e.info.id := Entry(e)], gone[..n], INDEX);
    }
    hide Agrees, Surplus, SaveList, LoadIndex, Without, Pruned;
    SameList(disk, d, e);
    assert gone[..|gone|] == gone;
    WithoutTwice(disk, gone, n, e.info.id, Entry(e));
  }
}
