/**
Full replacement of an owner's dog list. A partial unique index allows at most one representative dog
per owner after every single statement, not only at the end of the transaction.
*/
module DogReplacement {
  import opened Common
  import opened Ordering

  datatype Profile = Profile(name: string, breed: string, gender: string, birthDate: int)

  datatype Dog = Dog(owner: int, profile: Profile, image: Option<int>, representative: bool)

  /** One requested dog: without an id it is to be created; `touchImage` says the image field was sent. */
  datatype Item = Item(id: Option<int>, profile: Profile, image: Option<int>, touchImage: bool, representative: bool)

  datatype Error = Forbidden | NotFound

  type Rows = map<int, Dog>

  predicate Leads(rows: Rows, owner: int, d: int) {
    d in rows && rows[d].owner == owner && rows[d].representative
  }

  /** The partial unique index on the owner of representative dogs. */
  ghost predicate IndexHolds(rows: Rows) {
    forall o, a, b :: Leads(rows, o, a) && Leads(rows, o, b) ==> a == b
  }

  // ---- what the request means ----

  /** The items to create, in order. */
  function Creates(items: seq<Item>): seq<Item> {
    if items == [] then [] else
      var last := items[|items| - 1];
      Creates(items[..|items| - 1]) + (if last.id.None? then [last] else [])
  }

  /** The items to update, in order. */
  function Updates(items: seq<Item>): seq<Item> {
    if items == [] then [] else
      var last := items[|items| - 1];
      Updates(items[..|items| - 1]) + (if last.id.Some? then [last] else [])
  }

  function ListedIds(items: seq<Item>): set<int> {
    set i | 0 <= i < |items| && items[i].id.Some? :: items[i].id.value
  }

  datatype Choice = Nobody | Existing(id: int) | Created(index: nat)

  /** The last flagged item decides. */
  function Chosen(items: seq<Item>): Choice {
    if items == [] then Nobody else
      var last := items[|items| - 1];
      if !last.representative then Chosen(items[..|items| - 1])
      else if last.id.Some? then Existing(last.id.value)
      else Created(|Creates(items[..|items| - 1])|)
  }

  /** The positions of the items to create before the `i`-th item. */
  function NewBefore(items: seq<Item>, i: nat): set<nat>
    requires i <= |items|
  {
    set j | 0 <= j < i && items[j].id.None?
  }

  lemma {:induction false} CreatesCounted(items: seq<Item>, i: nat)
    requires i <= |items|
    ensures |Creates(items[..i])| == |NewBefore(items, i)|
  {
    if i == 0 {
      assert NewBefore(items, i) == {};
    } else {
      CreatesCounted(items, i - 1);
      assert items[..i][..i - 1] == items[..i - 1];
      assert NewBefore(items, i) == NewBefore(items, i - 1) + if items[i - 1].id.None? then {i - 1} else {};
    }
  }

  /** By position: an item without an id is the so-many-th to create as items without an id precede it. */
  lemma {:induction false} CreatesAt(items: seq<Item>, i: nat)
    requires i < |items| && items[i].id.None?
    ensures var k := |NewBefore(items, i)|; k < |Creates(items)| && Creates(items)[k] == items[i]
    decreases |items|
  {
    var init := items[..|items| - 1];
    if i == |items| - 1 {
      CreatesCounted(items, i);
    } else {
      CreatesAt(init, i);
      assert NewBefore(init, i) == NewBefore(items, i);
    }
  }

  /** By position: the flagged item with no flagged item after it is chosen, by its id or as the so-many-th new dog. */
  lemma {:induction false} LastFlaggedDecides(items: seq<Item>, i: nat)
    requires i < |items| && items[i].representative && forall j :: i < j < |items| ==> !items[j].representative
    ensures Chosen(items) == if items[i].id.Some? then Existing(items[i].id.value) else Created(|NewBefore(items, i)|)
    decreases |items|
  {
    var init := items[..|items| - 1];
    if i == |items| - 1 {
      CreatesCounted(items, i);
    } else {
      LastFlaggedDecides(init, i);
      assert NewBefore(init, i) == NewBefore(items, i);
    }
  }

  /** And nobody is chosen exactly when nothing is flagged. */
  lemma {:induction false} NobodyFlagged(items: seq<Item>)
    ensures Chosen(items) == Nobody <==> forall j :: 0 <= j < |items| ==> !items[j].representative
    decreases |items|
  {
    if items != [] {
      NobodyFlagged(items[..|items| - 1]);
    }
  }

  /** The profile the request leaves dog `d` with: the last item about it decides. */
  function ProfileAfter(items: seq<Item>, d: int, before: Profile): Profile {
    if items == [] then before else
      var last := items[|items| - 1];
      if last.id == Some(d) then last.profile else ProfileAfter(items[..|items| - 1], d, before)
  }

  /** The image: the last item about it that sent an image field decides. */
  function ImageAfter(items: seq<Item>, d: int, before: Option<int>): Option<int> {
    if items == [] then before else
      var last := items[|items| - 1];
      if last.id == Some(d) && last.touchImage then last.image else ImageAfter(items[..|items| - 1], d, before)
  }

  /** By position: the last item about the dog gives its profile. */
  lemma {:induction false} LastItemDecides(items: seq<Item>, d: int, before: Profile, i: nat)
    requires i < |items| && items[i].id == Some(d) && forall j :: i < j < |items| ==> items[j].id != Some(d)
    ensures ProfileAfter(items, d, before) == items[i].profile
    decreases |items|
  {
    if i < |items| - 1 { LastItemDecides(items[..|items| - 1], d, before, i); }
  }

  /** And the last one that sent an image field its image. */
  lemma {:induction false} LastImageDecides(items: seq<Item>, d: int, before: Option<int>, i: nat)
    requires i < |items| && items[i].id == Some(d) && items[i].touchImage
    requires forall j :: i < j < |items| ==> items[j].id != Some(d) || !items[j].touchImage
    ensures ImageAfter(items, d, before) == items[i].image
    decreases |items|
  {
    if i < |items| - 1 { LastImageDecides(items[..|items| - 1], d, before, i); }
  }

  /** Without such an item they stay. */
  lemma {:induction false} UnmentionedStays(items: seq<Item>, d: int, profile: Profile, image: Option<int>)
    ensures (forall j :: 0 <= j < |items| ==> items[j].id != Some(d)) ==> ProfileAfter(items, d, profile) == profile
    ensures (forall j :: 0 <= j < |items| ==> items[j].id != Some(d) || !items[j].touchImage) ==>
              ImageAfter(items, d, image) == image
    decreases |items|
  {
    if items != [] { UnmentionedStays(items[..|items| - 1], d, profile, image); }
  }

  function OwnedIds(rows: Rows, owner: int): set<int> {
    set d | d in rows && rows[d].owner == owner
  }

  /** What one UPDATE ... WHERE owner_id = owner AND id = item.id makes of row `d`. */
  function Updated(dog: Dog, owner: int, d: int, item: Item): Dog {
    if dog.owner == owner && item.id == Some(d) then
      dog.(profile := item.profile, representative := false, image := if item.touchImage then item.image else dog.image)
    else dog
  }

  function UpdatedAll(dog: Dog, owner: int, d: int, items: seq<Item>): Dog {
    if items == [] then dog
    else Updated(UpdatedAll(dog, owner, d, items[..|items| - 1]), owner, d, items[|items| - 1])
  }

  lemma {:induction false} UpdatesLastWins(dog: Dog, owner: int, d: int, items: seq<Item>)
    requires dog.owner == owner
    ensures UpdatedAll(dog, owner, d, Updates(items)) ==
            Dog(owner, ProfileAfter(items, d, dog.profile), ImageAfter(items, d, dog.image),
                dog.representative && d !in ListedIds(items))
    decreases |items|
  {
    if items != [] {
      var init, last := items[..|items| - 1], items[|items| - 1];
      UpdatesLastWins(dog, owner, d, init);
      ListedSplit(items);
      assert last.id == Some(d) <==> last.id.Some? && last.id.value == d;
      if last.id.Some? {
        assert Updates(items)[..|Updates(items)| - 1] == Updates(init);
      } else {
        assert Updates(items) == Updates(init);
      }
    }
  }

  lemma ListedSplit(items: seq<Item>)
    requires items != []
    ensures var last := items[|items| - 1];
            ListedIds(items) == ListedIds(items[..|items| - 1]) + (if last.id.Some? then {last.id.value} else {})
  {
  }

  lemma {:induction false} OthersUntouched(dog: Dog, owner: int, d: int, items: seq<Item>)
    requires dog.owner != owner
    ensures UpdatedAll(dog, owner, d, items) == dog
    decreases |items|
  {
    if items != [] { OthersUntouched(dog, owner, d, items[..|items| - 1]); }
  }

  lemma FewerLeaders(a: Rows, b: Rows)
    requires IndexHolds(a) && forall o, d :: Leads(b, o, d) ==> Leads(a, o, d)
    ensures IndexHolds(b)
  {
  }

  ghost predicate Distinct(ids: seq<int>) {
    forall i, j :: 0 <= i < j < |ids| ==> ids[i] != ids[j]
  }

  class DogTable {
    var rows: Rows

    /** One row of the bulk UPDATE. */
    method UpdateOne(owner: int, item: Item)
      requires IndexHolds(rows)
      modifies this
      ensures IndexHolds(rows) && rows == map d | d in old(rows) :: Updated(old(rows)[d], owner, d, item)
    {
      if item.id.Some? && item.id.value in rows && rows[item.id.value].owner == owner {
        var d := item.id.value;
        rows := rows[d := Updated(rows[d], owner, d, item)];
      }
      FewerLeaders(old(rows), rows);
    }

    method BulkUpdate(owner: int, items: seq<Item>)
      requires IndexHolds(rows)
      modifies this
      ensures IndexHolds(rows) && rows == map d | d in old(rows) :: UpdatedAll(old(rows)[d], owner, d, items)
    {
      for k := 0 to |items|
        invariant IndexHolds(rows)
        invariant rows == map d | d in old(rows) :: UpdatedAll(old(rows)[d], owner, d, items[..k])
      {
        UpdateOne(owner, items[k]);
        assert items[..k + 1][..k] == items[..k];
      }
      assert items[..|items|] == items;
    }

    /** New rows, never representative at insertion; `ids` are their fresh keys. */
    method CreateMany(owner: int, items: seq<Item>, ids: seq<int>)
      requires IndexHolds(rows) && |ids| == |items| && Distinct(ids)
      requires forall i :: 0 <= i < |ids| ==> ids[i] !in rows
      modifies this
      ensures IndexHolds(rows) && rows.Keys == old(rows).Keys + Elements(ids)
      ensures forall d :: d in old(rows) ==> d in rows && rows[d] == old(rows)[d]
      ensures forall i :: 0 <= i < |ids| ==> ids[i] in rows && rows[ids[i]] == NewDog(owner, items[i])
    {
      for k := 0 to |ids|
        invariant IndexHolds(rows) && rows.Keys == old(rows).Keys + Elements(ids[..k])
        invariant forall d :: d in old(rows) ==> d in rows && rows[d] == old(rows)[d]
        invariant forall i :: 0 <= i < k ==> ids[i] in rows && rows[ids[i]] == NewDog(owner, items[i])
      {
        ghost var before := rows;
        rows := rows[ids[k] := NewDog(owner, items[k])];
        FewerLeaders(before, rows);
        assert ids[..k + 1] == ids[..k] + [ids[k]];
      }
      assert ids[..|ids|] == ids;
    }

    method DeleteMany(owner: int, ids: set<int>)
      requires IndexHolds(rows)
      modifies this
      ensures IndexHolds(rows) && rows == Without(old(rows), owner, ids)
    {
      rows := Without(rows, owner, ids);
      FewerLeaders(old(rows), rows);
    }

    method ClearRepresentative(owner: int)
      requires IndexHolds(rows)
      modifies this
      ensures IndexHolds(rows) && rows == Cleared(old(rows), owner)
    {
      rows := Cleared(rows, owner);
      FewerLeaders(old(rows), rows);
    }

    /** The index would reject this statement while another dog of the owner is representative. */
    method MarkRepresentative(owner: int, d: int) returns (found: bool)
      requires IndexHolds(rows) && forall x :: !Leads(rows, owner, x)
      modifies this
      ensures IndexHolds(rows) && rows == Marked(old(rows), owner, d)
      ensures found <==> d in old(rows) && old(rows)[d].owner == owner
    {
      found := d in rows && rows[d].owner == owner;
      if found {
        rows := rows[d := rows[d].(representative := true)];
      }
      assert forall o, x :: Leads(rows, o, x) ==> (o == owner && x == d) || Leads(old(rows), o, x);
    }

    /** Clear all of the owner's dogs, then mark one. */
    method SetRepresentative(owner: int, d: int) returns (found: bool)
      requires IndexHolds(rows)
      modifies this
      ensures IndexHolds(rows) && rows == Marked(Cleared(old(rows), owner), owner, d)
      ensures found <==> d in old(rows) && old(rows)[d].owner == owner
    {
      ClearRepresentative(owner);
      found := MarkRepresentative(owner, d);
    }

    /** Choosing a representative on its own: afterwards that dog is the owner's only one. */
    method SetRepresentativeDog(owner: int, d: int) returns (r: Result<(), Error>)
      requires IndexHolds(rows)
      modifies this
      ensures IndexHolds(rows) && rows.Keys == old(rows).Keys
      ensures r.Ok? <==> d in OwnedIds(old(rows), owner)
      ensures r.Ok? ==> forall x :: Leads(rows, owner, x) <==> x == d
      ensures r.Err? ==> r.error == NotFound && rows == old(rows)
    {
      if d !in rows || rows[d].owner != owner {
        return Err(NotFound);
      }
      var found := SetRepresentative(owner, d);
      return Ok(());
    }

    /** The update, insert and delete statements, in that order. */
    method Apply(owner: int, updateIds: set<int>, creates: seq<Item>, updates: seq<Item>, newIds: seq<int>,
                 ghost items: seq<Item>)
      requires IndexHolds(rows)
      requires updateIds == ListedIds(items) && creates == Creates(items) && updates == Updates(items)
      requires |newIds| == |creates| && Distinct(newIds) && forall i :: 0 <= i < |newIds| ==> newIds[i] !in rows
      requires ListedIds(items) <= OwnedIds(rows, owner)
      modifies this
      ensures IndexHolds(rows) && Contents(old(rows), rows, owner, items, newIds)
      ensures forall d :: d in OwnedIds(rows, owner) ==> !rows[d].representative
    {
      var existing := OwnedIds(rows, owner);
      BulkUpdate(owner, updates);
      ghost var updated := rows;
      CreateMany(owner, creates, newIds);
      ghost var extended := rows;
      var surplus := existing - (updateIds + Elements(newIds));
      AfterStatements(old(rows), updated, extended, owner, items, newIds, surplus);
      if surplus != {} {
        DeleteMany(owner, surplus);
      } else {
        assert Without(rows, owner, surplus) == rows;
      }
    }

    /**
    The whole replacement. `newIds` are the keys the new rows get. When some listed id is not the
    owner's, nothing is changed.
    */
    method Upsert(owner: int, items: seq<Item>, newIds: seq<int>) returns (r: Result<(), Error>)
      requires IndexHolds(rows)
      requires |newIds| == |Creates(items)| && Distinct(newIds) && forall i :: 0 <= i < |newIds| ==> newIds[i] !in rows
      modifies this
      ensures IndexHolds(rows)
      ensures r.Ok? <==> ListedIds(items) <= OwnedIds(old(rows), owner)
      ensures r.Ok? ==> Replaced(old(rows), rows, owner, items, newIds)
      ensures r.Err? ==> r.error == Forbidden && rows == old(rows)
    {
      var updateIds, creates, updates, chosenId, chosenNew := ReadRequest(items);
      var owned := updateIds * OwnedIds(rows, owner);
      SameSize(owned, updateIds);
      if |owned| != |updateIds| {
        return Err(Forbidden);
      }
      ghost var before := rows;
      Apply(owner, updateIds, creates, updates, newIds, items);
      ghost var trimmed := rows;
      var chosen := chosenId;
      if chosenNew.Some? {
        chosen := if chosenNew.value < |newIds| then Some(newIds[chosenNew.value]) else None;
      }
      assert chosen == Picked(items, newIds);
      PickedRequested(items, newIds);
      if chosen.Some? && updateIds + Elements(newIds) != {} {
        var found := SetRepresentative(owner, chosen.value);
      }
      Representative(before, trimmed, rows, owner, items, newIds);
      return Ok(());
    }
  }

  /** Sorts the request into rows to create and rows to update, and notes who is to be representative. */
  method ReadRequest(items: seq<Item>)
    returns (updateIds: set<int>, creates: seq<Item>, updates: seq<Item>, chosenId: Option<int>, chosenNew: Option<nat>)
    ensures updateIds == ListedIds(items) && creates == Creates(items) && updates == Updates(items)
    ensures Recorded(Chosen(items), chosenId, chosenNew)
  {
    updateIds, creates, updates, chosenId, chosenNew := {}, [], [], None, None;
    for k := 0 to |items|
      invariant updateIds == ListedIds(items[..k])
      invariant creates == Creates(items[..k]) && updates == Updates(items[..k])
      invariant Recorded(Chosen(items[..k]), chosenId, chosenNew)
    {
      var item := items[k];
      assert items[..k + 1][..k] == items[..k];
      ListedSplit(items[..k + 1]);
      if item.id.None? {
        creates := creates + [item];
        if item.representative {
          chosenNew, chosenId := Some(|creates| - 1), None;
        }
      } else {
        updateIds := updateIds + {item.id.value};
        updates := updates + [item];
        if item.representative {
          chosenId, chosenNew := item.id, None;
        }
      }
    }
    assert items[..|items|] == items;
  }

  /** The two variables of the loop hold the choice: at most one of them is set. */
  predicate Recorded(c: Choice, id: Option<int>, index: Option<nat>) {
    match c
    case Nobody => id.None? && index.None?
    case Existing(d) => id == Some(d) && index.None?
    case Created(k) => id.None? && index == Some(k)
  }

  lemma SameSize(a: set<int>, b: set<int>)
    requires a <= b
    ensures |a| == |b| <==> b <= a
  {
    var rest := b - a;
    assert b == a + rest;
    if |a| == |b| { assert rest == {}; }
  }

  /** The dog the request makes representative. */
  function Picked(items: seq<Item>, newIds: seq<int>): Option<int> {
    match Chosen(items)
    case Nobody => None
    case Existing(d) => Some(d)
    case Created(k) => if k < |newIds| then Some(newIds[k]) else None
  }

  /** The owner's dogs are the listed and the created ones, with the requested contents; others' dogs are as before. */
  ghost predicate Contents(before: Rows, after: Rows, owner: int, items: seq<Item>, newIds: seq<int>)
    requires |newIds| == |Creates(items)|
  {
    && OwnedIds(after, owner) == ListedIds(items) + Elements(newIds)
    && (forall d :: d in before && before[d].owner != owner ==> d in after && after[d] == before[d])
    && (forall d :: d in after && after[d].owner != owner ==> d in before && before[d].owner != owner)
    && (forall d :: d in ListedIds(items) && d in before && d in after ==>
          && after[d].profile == ProfileAfter(items, d, before[d].profile)
          && after[d].image == ImageAfter(items, d, before[d].image))
    && (forall i :: 0 <= i < |newIds| && newIds[i] in after ==>
          && after[newIds[i]].profile == Creates(items)[i].profile
          && after[newIds[i]].image == Creates(items)[i].image)
  }

  ghost predicate Replaced(before: Rows, after: Rows, owner: int, items: seq<Item>, newIds: seq<int>)
    requires |newIds| == |Creates(items)|
  {
    && Contents(before, after, owner, items, newIds)
    && (forall d :: d in OwnedIds(after, owner) ==> (after[d].representative <==> Picked(items, newIds) == Some(d)))
  }

  lemma AfterStatements(before: Rows, updated: Rows, extended: Rows, owner: int, items: seq<Item>, newIds: seq<int>,
                        surplus: set<int>)
    requires |newIds| == |Creates(items)| && ListedIds(items) <= OwnedIds(before, owner)
    requires updated == map d | d in before :: UpdatedAll(before[d], owner, d, Updates(items))
    requires extended.Keys == updated.Keys + Elements(newIds)
    requires forall d :: d in updated ==> d in extended && extended[d] == updated[d]
    requires forall i :: 0 <= i < |newIds| ==>
               newIds[i] !in before && newIds[i] in extended && extended[newIds[i]] == NewDog(owner, Creates(items)[i])
    requires surplus == OwnedIds(before, owner) - (ListedIds(items) + Elements(newIds))
    ensures Contents(before, Without(extended, owner, surplus), owner, items, newIds)
    ensures var after := Without(extended, owner, surplus);
            forall d :: d in OwnedIds(after, owner) ==> !after[d].representative
  {
    var after := Without(extended, owner, surplus);
    forall d | d in before
      ensures updated[d].owner == before[d].owner
      ensures before[d].owner != owner ==> updated[d] == before[d]
      ensures before[d].owner == owner ==>
                updated[d] == Dog(owner, ProfileAfter(items, d, before[d].profile),
                                  ImageAfter(items, d, before[d].image),
                                  before[d].representative && d !in ListedIds(items))
    {
      if before[d].owner == owner { UpdatesLastWins(before[d], owner, d, items); }
      else { OthersUntouched(before[d], owner, d, Updates(items)); }
    }
    forall d | d in Elements(newIds)
      ensures d in extended && extended[d].owner == owner && !extended[d].representative
    {
      var i :| 0 <= i < |newIds| && newIds[i] == d;
    }
    assert OwnedIds(after, owner) == ListedIds(items) + Elements(newIds);
  }

  lemma {:induction false} ChosenListed(items: seq<Item>)
    ensures match Chosen(items)
            case Nobody => true
            case Existing(d) => d in ListedIds(items)
            case Created(k) => k < |Creates(items)|
    decreases |items|
  {
    if items != [] {
      ChosenListed(items[..|items| - 1]);
      ListedSplit(items);
    }
  }

  lemma PickedRequested(items: seq<Item>, newIds: seq<int>)
    requires |newIds| == |Creates(items)|
    ensures Picked(items, newIds).Some? ==> Picked(items, newIds).value in ListedIds(items) + Elements(newIds)
  {
    ChosenListed(items);
  }

  lemma Representative(before: Rows, trimmed: Rows, after: Rows, owner: int, items: seq<Item>, newIds: seq<int>)
    requires |newIds| == |Creates(items)| && Contents(before, trimmed, owner, items, newIds)
    requires forall d :: d in OwnedIds(trimmed, owner) ==> !trimmed[d].representative
    requires after == match Picked(items, newIds)
                      case None => trimmed
                      case Some(d) => Marked(Cleared(trimmed, owner), owner, d)
    ensures Replaced(before, after, owner, items, newIds)
  {
  }

  function NewDog(owner: int, item: Item): Dog {
    Dog(owner, item.profile, item.image, false)
  }

  function Without(rows: Rows, owner: int, ids: set<int>): Rows {
    map d | d in rows && !(rows[d].owner == owner && d in ids) :: rows[d]
  }

  function Cleared(rows: Rows, owner: int): Rows {
    map d | d in rows :: if rows[d].owner == owner then rows[d].(representative := false) else rows[d]
  }

  function Marked(rows: Rows, owner: int, d: int): Rows {
    if d in rows && rows[d].owner == owner then rows[d := rows[d].(representative := true)] else rows
  }
}
