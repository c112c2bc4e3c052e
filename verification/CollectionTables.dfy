/** Collections, their ordered members, and the project details of members, as tables with their keys and cascades. */
module CollectionTables {
  import opened Options
  import opened Texts
  import opened CollectionNames

  datatype Member = Member(collection: int, sample: int, position: int)

  datatype Status = Candidate | Adopted

  datatype Detail = Detail(status: Status, note: string, adoptedAt: Option<int>)

  /** Member rows are kept in the order they were inserted. Collections are never deleted. */
  datatype Tables = Tables(samples: set<int>, collections: map<string, int>, nextCollection: int, members: seq<Member>,
                           details: map<(int, int), Detail>)

  const EMPTY := Tables({}, map[], 1, [], map[])

  datatype Update = Update(collection: int, sample: int, status: Status, note: string, addOnly: bool)

  datatype Failure = BadCount | EmptyName | MissingSample | MissingCollection | NoteTooLong | InvalidName

  datatype Added = Added(collection: int, count: nat, created: bool)

  datatype Outcome<T> = Done(tables: Tables, value: T) | Failed(error: Failure)

  // ---------- Rows ----------

  function Rows(members: seq<Member>, collection: int): seq<Member> {
    if members == [] then []
    else
      var rest, m := Rows(members[..|members| - 1], collection), members[|members| - 1];
      if m.collection == collection then rest + [m] else rest
  }

  /** The sample ids of a collection in the order they were added. */
  function List(members: seq<Member>, collection: int): seq<int> {
    if members == [] then []
    else
      var rest, m := List(members[..|members| - 1], collection), members[|members| - 1];
      if m.collection == collection then rest + [m.sample] else rest
  }

  predicate IsMember(members: seq<Member>, collection: int, sample: int) {
    exists i :: 0 <= i < |members| && members[i].collection == collection && members[i].sample == sample
  }

  function MaxPosition(members: seq<Member>, collection: int): Option<int> {
    if members == [] then None
    else
      var rest, m := MaxPosition(members[..|members| - 1], collection), members[|members| - 1];
      if m.collection != collection then rest
      else if rest.Some? && rest.value > m.position then rest else Some(m.position)
  }

  /** `COALESCE(MAX(position), 0) + 1`. */
  function NextPosition(members: seq<Member>, collection: int): int {
    var max := MaxPosition(members, collection);
    if max.Some? then max.value + 1 else 1
  }

  /** An insert that a primary-key conflict turns into nothing. */
  function WithMember(members: seq<Member>, collection: int, sample: int): seq<Member> {
    if IsMember(members, collection, sample) then members
    else members + [Member(collection, sample, NextPosition(members, collection))]
  }

  function WithMembers(members: seq<Member>, collection: int, ids: seq<int>): seq<Member> {
    if ids == [] then members
    else WithMember(WithMembers(members, collection, ids[..|ids| - 1]), collection, ids[|ids| - 1])
  }

  function WithoutRows(members: seq<Member>, gone: Member -> bool): seq<Member> {
    if members == [] then []
    else
      var rest, m := WithoutRows(members[..|members| - 1], gone), members[|members| - 1];
      if gone(m) then rest else rest + [m]
  }

  // ---------- Statements ----------

  function WithCollection(t: Tables, name: string): Tables {
    if name in t.collections then t
    else t.(collections := t.collections[name := t.nextCollection], nextCollection := t.nextCollection + 1)
  }

  lemma {:induction false} WithMembersGrows(members: seq<Member>, collection: int, ids: seq<int>)
    ensures members <= WithMembers(members, collection, ids)
    decreases |ids|
  {
    if ids != [] { WithMembersGrows(members, collection, ids[..|ids| - 1]); }
  }

  function AddSamplesTo(lower: char -> string, t: Tables, name: string, ids: seq<int>): Outcome<Added> {
    if ids == [] || |ids| > 100 then Failed(BadCount)
    else
      match Normalized(lower, name)
      case None => Failed(EmptyName)
      case Some(n) =>
        if exists i :: 0 <= i < |ids| && ids[i] !in t.samples then Failed(MissingSample)
        else
          var u := WithCollection(t, n);
          var members := WithMembers(u.members, u.collections[n], ids);
          WithMembersGrows(u.members, u.collections[n], ids);
          Done(u.(members := members), Added(u.collections[n], |members| - |u.members|, n !in t.collections))
  }

  /** A detail row is inserted or replaced; the adoption time is kept only while the row stays adopted. */
  function Upserted(details: map<(int, int), Detail>, u: Update, now: int): map<(int, int), Detail> {
    var key := (u.collection, u.sample);
    var adoptedAt :=
      if u.status.Candidate? then None
      else if key in details && details[key].status.Adopted? then details[key].adoptedAt
      else Some(now);
    details[key := Detail(u.status, u.note, adoptedAt)]
  }

  function UpdateMember(t: Tables, u: Update, now: int): Outcome<()> {
    if |u.note| > 4000 then Failed(NoteTooLong)
    else if u.collection !in t.collections.Values then Failed(MissingCollection)
    else if IsMember(t.members, u.collection, u.sample) then
      if u.addOnly then Done(t, ()) else Done(t.(details := Upserted(t.details, u, now)), ())
    else if u.sample !in t.samples then Failed(MissingSample)
    else Done(t.(members := WithMember(t.members, u.collection, u.sample), details := Upserted(t.details, u, now)), ())
  }

  function RemoveMember(t: Tables, collection: int, sample: int): Tables {
    t.(members := WithoutRows(t.members, (m: Member) => m.collection == collection && m.sample == sample),
       details := t.details - {(collection, sample)})
  }

  function DeleteSample(t: Tables, sample: int): Tables {
    t.(samples := t.samples - {sample}, members := WithoutRows(t.members, (m: Member) => m.sample == sample),
       details := map k | k in t.details && k.1 != sample :: t.details[k])
  }

  function CreateShelf(lower: char -> string, t: Tables, name: string): Outcome<int> {
    var trimmed := Trim(name);
    if trimmed == "" || |trimmed| > 120 then Failed(InvalidName)
    else
      match Normalized(lower, trimmed)
      case None => Failed(EmptyName)
      case Some(n) => var u := WithCollection(t, n); Done(u, u.collections[n])
  }

  datatype Event =
    | InsertSample(sample: int)
    | Delete(sample: int)
    | Shelf(name: string)
    | Add(name: string, ids: seq<int>)
    | UpdateProject(update: Update, now: int)
    | Remove(collection: int, sample: int)

  /** A failed transaction leaves the tables as they were. */
  function After<T>(t: Tables, outcome: Outcome<T>): Tables { if outcome.Done? then outcome.tables else t }

  function Next(lower: char -> string, t: Tables, e: Event): Tables {
    match e
    case InsertSample(sample) => t.(samples := t.samples + {sample})
    case Delete(sample) => DeleteSample(t, sample)
    case Shelf(name) => After(t, CreateShelf(lower, t, name))
    case Add(name, ids) => After(t, AddSamplesTo(lower, t, name, ids))
    case UpdateProject(update, now) => After(t, UpdateMember(t, update, now))
    case Remove(collection, sample) => RemoveMember(t, collection, sample)
  }

  // ---------- The invariant ----------

  ghost predicate MembersOk(members: seq<Member>) {
    && (forall i :: 0 <= i < |members| ==> members[i].position >= 1)
    && (forall i, j :: 0 <= i < j < |members| && members[i].collection == members[j].collection ==>
          members[i].position < members[j].position && members[i].sample != members[j].sample)
  }

  ghost predicate KeysOk(t: Tables) {
    && (forall i :: 0 <= i < |t.members| ==>
        t.members[i].sample in t.samples && t.members[i].collection in t.collections.Values)
    && (forall n :: n in t.collections ==> t.collections[n] < t.nextCollection)
    && (forall n, k :: n in t.collections && k in t.collections && t.collections[n] == t.collections[k] ==> n == k)
  }

  /** Only members have details, and exactly the adopted ones an adoption time. */
  ghost predicate DetailsOk(t: Tables) {
    forall k :: k in t.details ==>
      IsMember(t.members, k.0, k.1) && (t.details[k].adoptedAt.Some? <==> t.details[k].status.Adopted?)
  }

  ghost predicate Inv(t: Tables) { MembersOk(t.members) && KeysOk(t) && DetailsOk(t) }

  // ---------- Members refine an append-unique list ----------

  /** The list semantics: ids already present are skipped. */
  function AppendUnique(list: seq<int>, ids: seq<int>): seq<int> {
    if ids == [] then list
    else
      var before := AppendUnique(list, ids[..|ids| - 1]);
      if ids[|ids| - 1] in before then before else before + [ids[|ids| - 1]]
  }

  /** The new ids of a request, each at its first occurrence. */
  function FirstOccurrences(list: seq<int>, ids: seq<int>, n: nat): seq<int>
    requires n <= |ids|
  {
    if n == 0 then []
    else
      FirstOccurrences(list, ids, n - 1) + if ids[n - 1] in list || ids[n - 1] in ids[..n - 1] then [] else [ids[n - 1]]
  }

  lemma AppendUniqueStep(list: seq<int>, ids: seq<int>, id: int)
    ensures var before := AppendUnique(list, ids);
            AppendUnique(list, ids + [id]) == before + if id in before then [] else [id]
  {}

  lemma {:induction false} AppendUniqueAppendsFirstOccurrences(list: seq<int>, ids: seq<int>, n: nat)
    requires n <= |ids|
    ensures AppendUnique(list, ids[..n]) == list + FirstOccurrences(list, ids, n)
    ensures forall id :: id in AppendUnique(list, ids[..n]) <==> id in list || id in ids[..n]
  {
    if n == 0 {
      assert ids[..0] == [] && list + [] == list;
    } else {
      AppendUniqueAppendsFirstOccurrences(list, ids, n - 1);
      var before := AppendUnique(list, ids[..n - 1]);
      assert ids[..n][..n - 1] == ids[..n - 1] && ids[..n] == ids[..n - 1] + [ids[n - 1]];
      AppendUniqueStep(list, ids[..n - 1], ids[n - 1]);
      if ids[n - 1] in before { assert FirstOccurrences(list, ids, n) == FirstOccurrences(list, ids, n - 1); }
    }
  }

  /** The new ids stand in the order of the request, each where it occurs first. */
  lemma {:induction false} FirstOccurrencesInOrder(list: seq<int>, ids: seq<int>, n: nat) returns (places: seq<nat>)
    requires n <= |ids|
    ensures var news := FirstOccurrences(list, ids, n);
            && |places| == |news| && (forall i :: 0 <= i < |places| ==> places[i] < n && news[i] == ids[places[i]])
            && (forall i, j :: 0 <= i < j < |places| ==> places[i] < places[j])
    ensures forall k :: 0 <= k < n ==> (k in places <==> ids[k] !in list && ids[k] !in ids[..k])
  {
    places := [];
    if n > 0 {
      places := FirstOccurrencesInOrder(list, ids, n - 1);
      if ids[n - 1] !in list && ids[n - 1] !in ids[..n - 1] { places := places + [n - 1]; }
    }
  }

  lemma {:induction false} ListHoldsMembers(members: seq<Member>, collection: int, sample: int)
    ensures sample in List(members, collection) <==> IsMember(members, collection, sample)
    decreases |members|
  {
    if members != [] {
      var n := |members| - 1;
      ListHoldsMembers(members[..n], collection, sample);
      if i :| 0 <= i < |members| && members[i].collection == collection && members[i].sample == sample {
        assert i < n ==> members[..n][i] == members[i];
      }
      if IsMember(members[..n], collection, sample) {
        var i :| 0 <= i < n && members[..n][i].collection == collection && members[..n][i].sample == sample;
        assert members[i].collection == collection;
      }
    }
  }

  lemma ListPush(members: seq<Member>, m: Member, collection: int)
    ensures List(members + [m], collection) ==
            List(members, collection) + if m.collection == collection then [m.sample] else []
  {}

  lemma {:induction false} MaxIsGreatest(members: seq<Member>, collection: int)
    ensures var max := MaxPosition(members, collection);
            && (max.Some? ==> exists i :: 0 <= i < |members| && members[i].position == max.value)
            && forall i :: 0 <= i < |members| && members[i].collection == collection ==>
               max.Some? && members[i].position <= max.value
    decreases |members|
  {
    if members != [] {
      var n := |members| - 1;
      MaxIsGreatest(members[..n], collection);
      forall i | 0 <= i < |members| && members[i].collection == collection
        ensures MaxPosition(members, collection).Some? && members[i].position <= MaxPosition(members, collection).value
      {
        if i < n { assert members[..n][i] == members[i]; }
      }
      var rest := MaxPosition(members[..n], collection);
      if rest.Some? {
        var i :| 0 <= i < n && members[..n][i].position == rest.value;
        assert members[i].position == rest.value;
      }
    }
  }

  predicate HasRows(members: seq<Member>, collection: int) {
    exists i :: 0 <= i < |members| && members[i].collection == collection
  }

  lemma {:induction false} MaxIsTaken(members: seq<Member>, collection: int) returns (i: nat)
    ensures MaxPosition(members, collection).Some? <==> HasRows(members, collection)
    ensures MaxPosition(members, collection).Some? ==>
              i < |members| &&
              members[i] == Member(collection, members[i].sample, MaxPosition(members, collection).value)
    decreases |members|
  {
    i := 0;
    if members != [] {
      var n := |members| - 1;
      i := MaxIsTaken(members[..n], collection);
      assert members == members[..n] + [members[n]];
      if HasRows(members[..n], collection) {
        var k :| 0 <= k < n && members[..n][k].collection == collection;
        assert members[k].collection == collection;
      }
      if HasRows(members, collection) {
        var k :| 0 <= k < |members| && members[k].collection == collection;
        assert k < n ==> members[..n][k].collection == collection;
      }
      if MaxPosition(members, collection) != MaxPosition(members[..n], collection) { i := n; }
    }
  }

  /** A new row comes one place after the last of its collection, or first. */
  lemma NextPositionFollows(members: seq<Member>, collection: int)
    ensures if HasRows(members, collection)
            then exists m :: m in members &&
                             m.collection == collection && m.position + 1 == NextPosition(members, collection)
            else NextPosition(members, collection) == 1
  {
    var i := MaxIsTaken(members, collection);
    if HasRows(members, collection) { assert members[i] in members; }
  }

  lemma MaxIsAbove(members: seq<Member>, collection: int)
    ensures forall i :: 0 <= i < |members| && members[i].collection == collection ==>
            members[i].position < NextPosition(members, collection)
    ensures MembersOk(members) ==> NextPosition(members, collection) >= 1
  {
    MaxIsGreatest(members, collection);
  }

  lemma NewRowKeepsOk(members: seq<Member>, m: Member)
    requires MembersOk(members) && m.position >= 1 && !IsMember(members, m.collection, m.sample)
    requires forall i :: 0 <= i < |members| && members[i].collection == m.collection ==>
             members[i].position < m.position
    ensures MembersOk(members + [m])
  {}

  lemma WithMemberRefines(members: seq<Member>, collection: int, sample: int, other: int)
    requires MembersOk(members)
    ensures var after := WithMember(members, collection, sample);
            && MembersOk(after)
            && List(after, collection) == AppendUnique(List(members, collection), [sample])
            && (other != collection ==> List(after, other) == List(members, other))
  {
    var list := List(members, collection);
    ListHoldsMembers(members, collection, sample);
    MaxIsAbove(members, collection);
    assert [sample][..0] == [] && AppendUnique(list, []) == list;
    if !IsMember(members, collection, sample) {
      var m := Member(collection, sample, NextPosition(members, collection));
      ListPush(members, m, collection);
      ListPush(members, m, other);
      NewRowKeepsOk(members, m);
    }
  }

  lemma AppendOne(list: seq<int>, ids: seq<int>)
    requires ids != []
    ensures AppendUnique(list, ids) == AppendUnique(AppendUnique(list, ids[..|ids| - 1]), [ids[|ids| - 1]])
  {}

  lemma {:induction false} WithMembersRefines(members: seq<Member>, collection: int, ids: seq<int>, other: int)
    requires MembersOk(members)
    ensures var after := WithMembers(members, collection, ids);
            && MembersOk(after)
            && List(after, collection) == AppendUnique(List(members, collection), ids)
            && (other != collection ==> List(after, other) == List(members, other))
            && |after| - |members| == |List(after, collection)| - |List(members, collection)|
    decreases |ids|
  {
    if ids != [] {
      var n := |ids| - 1;
      WithMembersRefines(members, collection, ids[..n], other);
      var before := WithMembers(members, collection, ids[..n]);
      WithMemberRefines(before, collection, ids[n], other);
      AppendOne(List(members, collection), ids);
      if !IsMember(before, collection, ids[n]) {
        ListPush(before, Member(collection, ids[n], NextPosition(before, collection)), collection);
      }
    }
  }

  lemma {:induction false} NoRowsNoList(members: seq<Member>, collection: int)
    requires forall i :: 0 <= i < |members| ==> members[i].collection != collection
    ensures List(members, collection) == []
    decreases |members|
  {
    if members != [] { NoRowsNoList(members[..|members| - 1], collection); }
  }

  lemma NewCollectionIsEmpty(t: Tables, c: int)
    requires KeysOk(t) && c >= t.nextCollection
    ensures List(t.members, c) == []
  {
    NoRowsNoList(t.members, c);
  }

  /**
   Adding samples either fails and changes nothing, or appends the new ids to that one list in order of first
   occurrence; the count is the growth of the list, and a list just created was empty.
   */
  lemma AddRefinesTheList(lower: char -> string, t: Tables, name: string, ids: seq<int>, other: int)
    requires Inv(t)
    ensures var r := AddSamplesTo(lower, t, name, ids);
            && (r.Failed? <==> ids == [] || |ids| > 100 || Normalized(lower, name).None?
                               || exists i :: 0 <= i < |ids| && ids[i] !in t.samples)
            && (r.Failed? ==> Next(lower, t, Add(name, ids)) == t)
            && (r.Done? ==>
                  var c, list := r.value.collection, List(t.members, r.value.collection);
                  && List(r.tables.members, c) == list + FirstOccurrences(list, ids, |ids|)
                  && r.value.count == |FirstOccurrences(list, ids, |ids|)|
                  && (other != c ==> List(r.tables.members, other) == List(t.members, other))
                  && (r.value.created ==> list == [])
                  && r.tables.details == t.details && r.tables.samples == t.samples)
  {
    hide FirstOccurrences, AppendUnique, Words, WithMembers;
    var r := AddSamplesTo(lower, t, name, ids);
    if r.Done? {
      var n := Normalized(lower, name).value;
      var u := WithCollection(t, n);
      var c := u.collections[n];
      WithMembersRefines(t.members, c, ids, other);
      AppendUniqueAppendsFirstOccurrences(List(t.members, c), ids, |ids|);
      assert ids[..|ids|] == ids;
      if n !in t.collections { NewCollectionIsEmpty(t, c); }
    }
  }

  /** The collection is the one of that name, and a collection made for it has an id of its own. */
  ghost predicate ListOfName(t: Tables, r: Tables, name: Option<string>, collection: int, created: bool) {
    && name.Some? && name.value in r.collections && r.collections[name.value] == collection
    && (created <==> name.value !in t.collections)
    && (created ==> collection !in t.collections.Values)
    && (forall n :: n != name.value ==> (n in r.collections <==> n in t.collections))
    && (forall n :: n in t.collections ==> n in r.collections && r.collections[n] == t.collections[n])
  }

  /** Which list it is: the one of the normalised name, created if there was none; every other name keeps its own. */
  lemma AddFindsTheList(lower: char -> string, t: Tables, name: string, ids: seq<int>)
    requires Inv(t)
    ensures var r := AddSamplesTo(lower, t, name, ids);
            && (ids == [] || |ids| > 100 <==> r == Failed(BadCount))
            && (r == Failed(EmptyName) ==> Normalized(lower, name).None?)
            && (r == Failed(MissingSample) ==> exists i :: 0 <= i < |ids| && ids[i] !in t.samples)
            && (r.Done? ==> ListOfName(t, r.tables, Normalized(lower, name), r.value.collection, r.value.created))
  {
    hide Words, WithMembers, MembersOk, DetailsOk;
  }

  /** A shelf is the collection of its normalised name: refused exactly for a blank or overlong one. */
  lemma ShelfFindsTheList(lower: char -> string, t: Tables, name: string)
    requires Inv(t)
    ensures var r := CreateShelf(lower, t, name);
            && (r == Failed(InvalidName) <==> Trim(name) == "" || |Trim(name)| > 120)
            && (r.Failed? ==> r == Failed(InvalidName) || Normalized(lower, Trim(name)).None?)
            && (r.Done? ==>
                  && ListOfName(t, r.tables, Normalized(lower, Trim(name)), r.value,
                                Normalized(lower, Trim(name)).value !in t.collections)
                  && r.tables.members == t.members && r.tables.details == t.details && r.tables.samples == t.samples)
  {
    hide Words, MembersOk, DetailsOk, Trim;
  }

  // ---------- The ordered listing ----------

  function InsertRow(rows: seq<Member>, m: Member): (r: seq<Member>)
    ensures multiset(r) == multiset(rows) + multiset{m}
  {
    if rows == [] || rows[|rows| - 1].position <= m.position then rows + [m]
    else
      var n := |rows| - 1;
      assert rows == rows[..n] + [rows[n]];
      InsertRow(rows[..n], m) + [rows[n]]
  }

  /** `ORDER BY position`. */
  function OrderByPosition(rows: seq<Member>): seq<Member> {
    if rows == [] then [] else InsertRow(OrderByPosition(rows[..|rows| - 1]), rows[|rows| - 1])
  }

  ghost predicate ByPosition(rows: seq<Member>) {
    forall i, j :: 0 <= i < j < |rows| ==> rows[i].position <= rows[j].position
  }

  lemma {:induction false} InsertRowSorts(rows: seq<Member>, m: Member)
    requires ByPosition(rows)
    ensures ByPosition(InsertRow(rows, m))
    decreases |rows|
  {
    if rows != [] && rows[|rows| - 1].position > m.position {
      var n := |rows| - 1;
      InsertRowSorts(rows[..n], m);
      var head := InsertRow(rows[..n], m);
      forall i | 0 <= i < |head| ensures head[i].position <= rows[n].position {
        assert head[i] in multiset(head);
        assert head[i] == m || head[i] in rows[..n];
      }
    }
  }

  /** Ordering by position sorts, and keeps every row. */
  lemma {:induction false} OrderingSorts(rows: seq<Member>)
    ensures ByPosition(OrderByPosition(rows)) && multiset(OrderByPosition(rows)) == multiset(rows)
    decreases |rows|
  {
    if rows != [] {
      OrderingSorts(rows[..|rows| - 1]);
      InsertRowSorts(OrderByPosition(rows[..|rows| - 1]), rows[|rows| - 1]);
      assert rows == rows[..|rows| - 1] + [rows[|rows| - 1]];
    }
  }

  function Ids(rows: seq<Member>): seq<int> { seq(|rows|, i requires 0 <= i < |rows| => rows[i].sample) }

  lemma {:induction false} RowsAreTheList(members: seq<Member>, collection: int)
    ensures var rows := Rows(members, collection);
            && Ids(rows) == List(members, collection)
            && forall i :: 0 <= i < |rows| ==> rows[i] in members && rows[i].collection == collection
    decreases |members|
  {
    if members != [] {
      RowsAreTheList(members[..|members| - 1], collection);
      assert forall m :: m in members[..|members| - 1] ==> m in members;
    }
  }

  lemma EarlierRowsAreBelow(members: seq<Member>)
    requires MembersOk(members) && members != []
    ensures var n := |members| - 1;
            && MembersOk(members[..n])
            && forall m :: m in members[..n] && m.collection == members[n].collection ==>
               m.position < members[n].position
  {
    var n := |members| - 1;
    assert forall i :: 0 <= i < n ==> members[..n][i] == members[i];
  }

  lemma {:induction false} RowsAreOrdered(members: seq<Member>, collection: int)
    requires MembersOk(members)
    ensures OrderByPosition(Rows(members, collection)) == Rows(members, collection)
    decreases |members|
  {
    hide List, Ids, MembersOk;
    if members != [] {
      var n := |members| - 1;
      EarlierRowsAreBelow(members);
      RowsAreOrdered(members[..n], collection);
      RowsAreTheList(members[..n], collection);
      var rest := Rows(members[..n], collection);
      if members[n].collection == collection {
        assert (rest + [members[n]])[..|rest|] == rest;
      }
    }
  }

  /** Listing a collection by position gives its samples in the order they were added. */
  lemma ListingIsInsertionOrder(t: Tables, collection: int)
    requires Inv(t)
    ensures Ids(OrderByPosition(Rows(t.members, collection))) == List(t.members, collection)
  {
    RowsAreOrdered(t.members, collection);
    RowsAreTheList(t.members, collection);
  }

  // ---------- Removal ----------

  function RemoveId(list: seq<int>, id: int): seq<int> {
    if list == [] then []
    else if list[|list| - 1] == id then RemoveId(list[..|list| - 1], id)
    else RemoveId(list[..|list| - 1], id) + [list[|list| - 1]]
  }

  /** Dropping rows keeps the order and the numbering of the rest. */
  lemma {:induction false} WithoutRowsKeepsOk(members: seq<Member>, gone: Member -> bool)
    requires MembersOk(members)
    ensures MembersOk(WithoutRows(members, gone))
    ensures forall m :: m in WithoutRows(members, gone) <==> m in members && !gone(m)
    decreases |members|
  {
    if members != [] {
      var n := |members| - 1;
      var rest, m := WithoutRows(members[..n], gone), members[n];
      WithoutRowsKeepsOk(members[..n], gone);
      assert members == members[..n] + [m];
      if !gone(m) {
        forall i | 0 <= i < |rest| && rest[i].collection == m.collection
          ensures rest[i].position < m.position && rest[i].sample != m.sample
        {
          assert rest[i] in members[..n];
          var k :| 0 <= k < n && members[..n][k] == rest[i];
          assert members[k].collection == members[n].collection;
        }
        NewRowKeepsOk(rest, m);
      }
    }
  }

  lemma {:induction false} RemovalRemovesFromTheList(members: seq<Member>, collection: int, sample: int, other: int)
    ensures var after := WithoutRows(members, (m: Member) => m.collection == collection && m.sample == sample);
            List(after, other) ==
              if other == collection then RemoveId(List(members, other), sample) else List(members, other)
    decreases |members|
  {
    if members != [] {
      var n := |members| - 1;
      var gone := (m: Member) => m.collection == collection && m.sample == sample;
      RemovalRemovesFromTheList(members[..n], collection, sample, other);
      ListPush(WithoutRows(members[..n], gone), members[n], other);
      assert (List(members[..n], other) + [members[n].sample])[..|List(members[..n], other)|] ==
             List(members[..n], other);
    }
  }

  /** What is left of a list without an id: every other id, in the order it had. */
  lemma {:induction false} RemoveIdInOrder(list: seq<int>, id: int) returns (places: seq<nat>)
    ensures var rest := RemoveId(list, id);
            && |places| == |rest| &&
               (forall i :: 0 <= i < |places| ==> places[i] < |list| && rest[i] == list[places[i]])
            && (forall i, j :: 0 <= i < j < |places| ==> places[i] < places[j])
    ensures forall k :: 0 <= k < |list| ==> (k in places <==> list[k] != id)
    decreases |list|
  {
    places := [];
    if list != [] {
      var n := |list| - 1;
      places := RemoveIdInOrder(list[..n], id);
      assert forall k :: 0 <= k < n ==> list[..n][k] == list[k];
      if list[n] != id { places := places + [n]; }
    }
  }

  lemma {:induction false} DeletionRemovesFromTheList(members: seq<Member>, sample: int, collection: int)
    ensures List(WithoutRows(members, (m: Member) => m.sample == sample), collection) ==
            RemoveId(List(members, collection), sample)
    decreases |members|
  {
    if members != [] {
      var n := |members| - 1;
      var gone := (m: Member) => m.sample == sample;
      DeletionRemovesFromTheList(members[..n], sample, collection);
      ListPush(WithoutRows(members[..n], gone), members[n], collection);
      assert (List(members[..n], collection) + [members[n].sample])[..|List(members[..n], collection)|] ==
             List(members[..n], collection);
    }
  }

  /** Deleting a sample takes it out of every list, with its details and nobody else's. */
  lemma DeleteRefinesTheList(t: Tables, sample: int, collection: int)
    ensures var r := DeleteSample(t, sample);
            && sample !in r.samples && r.samples == t.samples - {sample} && r.collections == t.collections
            && List(r.members, collection) == RemoveId(List(t.members, collection), sample)
            && (forall k :: k in r.details <==> k in t.details && k.1 != sample)
            && (forall k :: k in r.details ==> r.details[k] == t.details[k])
  {
    hide List, RemoveId, WithoutRows;
    DeletionRemovesFromTheList(t.members, sample, collection);
  }

  /** Removing a member takes it, and its details, out of that list and touches nothing else. */
  lemma RemoveRefinesTheList(t: Tables, collection: int, sample: int, other: int)
    requires Inv(t)
    ensures var r := RemoveMember(t, collection, sample);
            && List(r.members, collection) == RemoveId(List(t.members, collection), sample)
            && (other != collection ==> List(r.members, other) == List(t.members, other))
            && !IsMember(r.members, collection, sample) && (collection, sample) !in r.details
            && forall k :: k in t.details && k != (collection, sample) ==>
               k in r.details && r.details[k] == t.details[k]
  {
    hide RemoveId, List;
    RemovalRemovesFromTheList(t.members, collection, sample, collection);
    RemovalRemovesFromTheList(t.members, collection, sample, other);
    var gone := (m: Member) => m.collection == collection && m.sample == sample;
    WithoutRowsKeepsOk(t.members, gone);
    var after := WithoutRows(t.members, gone);
    forall i | 0 <= i < |after| ensures !(after[i].collection == collection && after[i].sample == sample) {
      assert after[i] in after;
      assert !gone(after[i]);
    }
  }

  // ---------- Every step keeps the invariant ----------

  lemma StillMember(members: seq<Member>, after: seq<Member>, collection: int, sample: int)
    requires IsMember(members, collection, sample)
    requires forall m :: m in members && m.collection == collection && m.sample == sample ==> m in after
    ensures IsMember(after, collection, sample)
  {}

  lemma {:induction false} WithMembersRows(members: seq<Member>, collection: int, ids: seq<int>)
    ensures forall m :: m in WithMembers(members, collection, ids) ==>
            m in members || (m.collection == collection && m.sample in ids)
    decreases |ids|
  {
    if ids != [] {
      WithMembersRows(members, collection, ids[..|ids| - 1]);
      assert ids[|ids| - 1] in ids && forall id :: id in ids[..|ids| - 1] ==> id in ids;
    }
  }

  lemma DetailsSurvive(t: Tables, members: seq<Member>)
    requires DetailsOk(t) && forall m :: m in t.members ==> m in members
    ensures DetailsOk(t.(members := members))
  {
    forall k | k in t.details ensures IsMember(members, k.0, k.1) { StillMember(t.members, members, k.0, k.1); }
  }

  lemma NewCollectionKeepsInv(t: Tables, name: string)
    requires Inv(t)
    ensures Inv(WithCollection(t, name)) && WithCollection(t, name).members == t.members
    ensures name in WithCollection(t, name).collections
  {
    var u := WithCollection(t, name);
    forall i | 0 <= i < |t.members| ensures t.members[i].collection in u.collections.Values {
      assert t.members[i].collection in t.collections.Values;
      var n :| n in t.collections && t.collections[n] == t.members[i].collection;
      assert n in u.collections && u.collections[n] == t.collections[n];
    }
  }

  lemma KeysSurvive(u: Tables, members: seq<Member>, name: string, ids: seq<int>)
    requires KeysOk(u) && name in u.collections && forall i :: 0 <= i < |ids| ==> ids[i] in u.samples
    requires forall m :: m in members ==> m in u.members || (m.collection == u.collections[name] && m.sample in ids)
    ensures KeysOk(u.(members := members))
  {
    forall i | 0 <= i < |members|
      ensures members[i].sample in u.samples && members[i].collection in u.collections.Values {
      assert members[i] in members;
      if members[i] in u.members { var k :| 0 <= k < |u.members| && u.members[k] == members[i]; }
    }
  }

  lemma SamplesStay(t: Tables, name: string)
    ensures WithCollection(t, name).samples == t.samples
  {
  }

  lemma AddKeepsInv(lower: char -> string, t: Tables, name: string, ids: seq<int>)
    requires Inv(t) && AddSamplesTo(lower, t, name, ids).Done?
    ensures Inv(AddSamplesTo(lower, t, name, ids).tables)
  {
    hide Words, WithMembers, WithCollection, MembersOk, KeysOk, DetailsOk, List;
    var n := Normalized(lower, name).value;
    var u := WithCollection(t, n);
    NewCollectionKeepsInv(t, n);
    var c := u.collections[n];
    assert u.samples == t.samples by { SamplesStay(t, n); }
    WithMembersRefines(u.members, c, ids, c);
    WithMembersRows(u.members, c, ids);
    WithMembersGrows(u.members, c, ids);
    var members := WithMembers(u.members, c, ids);
    DetailsSurvive(u, members);
    KeysSurvive(u, members, n, ids);
  }

  lemma UpsertKeepsDetails(t: Tables, u: Update, now: int)
    requires DetailsOk(t) && IsMember(t.members, u.collection, u.sample)
    ensures DetailsOk(t.(details := Upserted(t.details, u, now)))
  {}

  lemma WithMemberHolds(members: seq<Member>, collection: int, sample: int)
    ensures IsMember(WithMember(members, collection, sample), collection, sample)
  {
    if !IsMember(members, collection, sample) {
      assert WithMember(members, collection, sample)[|members|].sample == sample;
    }
  }

  lemma UpdateKeepsInv(t: Tables, u: Update, now: int)
    requires Inv(t) && UpdateMember(t, u, now).Done?
    ensures Inv(UpdateMember(t, u, now).tables)
  {
    hide MembersOk, DetailsOk, Upserted, IsMember, List, AppendUnique;
    var members := WithMember(t.members, u.collection, u.sample);
    WithMemberRefines(t.members, u.collection, u.sample, u.collection);
    DetailsSurvive(t, members);
    WithMemberHolds(t.members, u.collection, u.sample);
    UpsertKeepsDetails(t.(members := members), u, now);
  }

  lemma DropKeepsInv(t: Tables, gone: Member -> bool, details: map<(int, int), Detail>, samples: set<int>)
    requires Inv(t)
    requires forall k :: k in details ==> k in t.details && details[k] == t.details[k]
    requires forall m :: m in t.members && (m.collection, m.sample) in details ==> !gone(m)
    requires forall m :: m in t.members && !gone(m) ==> m.sample in samples
    ensures Inv(t.(members := WithoutRows(t.members, gone), details := details, samples := samples))
  {
    hide MembersOk, WithoutRows;
    WithoutRowsKeepsOk(t.members, gone);
    var after := WithoutRows(t.members, gone);
    forall k | k in details ensures IsMember(after, k.0, k.1) {
      assert k == (k.0, k.1);
      StillMember(t.members, after, k.0, k.1);
    }
    forall i | 0 <= i < |after| ensures after[i].sample in samples && after[i].collection in t.collections.Values {
      assert after[i] in after;
      var n :| 0 <= n < |t.members| && t.members[n] == after[i];
    }
  }

  lemma InsertKeepsInv(t: Tables, sample: int)
    requires Inv(t)
    ensures Inv(t.(samples := t.samples + {sample}))
  {
  }

  lemma DeleteKeepsInv(t: Tables, sample: int)
    requires Inv(t)
    ensures Inv(DeleteSample(t, sample))
  {
    forall m | m in t.members ensures m.sample in t.samples { var n :| 0 <= n < |t.members| && t.members[n] == m; }
    DropKeepsInv(t, (m: Member) => m.sample == sample, map k | k in t.details && k.1 != sample :: t.details[k],
                 t.samples - {sample});
  }

  lemma RemoveKeepsInv(t: Tables, collection: int, sample: int)
    requires Inv(t)
    ensures Inv(RemoveMember(t, collection, sample))
  {
    forall m | m in t.members ensures m.sample in t.samples { var n :| 0 <= n < |t.members| && t.members[n] == m; }
    DropKeepsInv(t, (m: Member) => m.collection == collection && m.sample == sample,
                 t.details - {(collection, sample)}, t.samples);
  }

  lemma NextKeepsInv(lower: char -> string, t: Tables, e: Event)
    requires Inv(t)
    ensures Inv(Next(lower, t, e))
  {
    hide Inv, AddSamplesTo, UpdateMember, WithoutRows, Words, WithCollection;
    match e
    case InsertSample(sample) => InsertKeepsInv(t, sample);
    case Delete(sample) => DeleteKeepsInv(t, sample);
    case Shelf(name) =>
      if CreateShelf(lower, t, name).Done? { NewCollectionKeepsInv(t, Normalized(lower, Trim(name)).value); }
    case Add(name, ids) => if AddSamplesTo(lower, t, name, ids).Done? { AddKeepsInv(lower, t, name, ids); }
    case UpdateProject(u, now) => if UpdateMember(t, u, now).Done? { UpdateKeepsInv(t, u, now); }
    case Remove(collection, sample) => RemoveKeepsInv(t, collection, sample);
  }

  // ---------- Whole runs ----------

  function Run(lower: char -> string, t: Tables, events: seq<Event>): Tables {
    if events == [] then t else Next(lower, Run(lower, t, events[..|events| - 1]), events[|events| - 1])
  }

  lemma {:induction false} RunKeepsInv(lower: char -> string, events: seq<Event>)
    ensures Inv(Run(lower, EMPTY, events))
    decreases |events|
  {
    if events != [] {
      RunKeepsInv(lower, events[..|events| - 1]);
      NextKeepsInv(lower, Run(lower, EMPTY, events[..|events| - 1]), events[|events| - 1]);
    }
  }

  predicate IsAdopted(t: Tables, key: (int, int)) { key in t.details && t.details[key].status.Adopted? }

  /** One step keeps the adoption time of a row that stays adopted, and stamps one that becomes adopted. */
  lemma AdoptionStep(lower: char -> string, t: Tables, e: Event, key: (int, int))
    requires Inv(t) && IsAdopted(Next(lower, t, e), key)
    ensures var d := Next(lower, t, e).details[key];
            if IsAdopted(t, key) then d.adoptedAt == t.details[key].adoptedAt
            else e.UpdateProject? && key == (e.update.collection, e.update.sample) && d.adoptedAt == Some(e.now)
  {
    hide Inv, Words, WithMembers, WithMember, WithoutRows, IsMember, Trim;
  }

  lemma NothingAdoptedAtFirst(key: (int, int))
    ensures !IsAdopted(EMPTY, key)
  {
  }

  /** The adoption time of a member is when its current unbroken run of adopted states began. */
  lemma {:induction false} AdoptedSinceStreakBegan(lower: char -> string, events: seq<Event>, key: (int, int))
    returns (i: nat)
    requires IsAdopted(Run(lower, EMPTY, events), key)
    ensures i < |events| && events[i].UpdateProject?
    ensures Run(lower, EMPTY, events).details[key].adoptedAt == Some(events[i].now)
    ensures !IsAdopted(Run(lower, EMPTY, events[..i]), key)
    ensures forall j :: i < j <= |events| ==> IsAdopted(Run(lower, EMPTY, events[..j]), key)
    decreases |events|
  {
    hide Next, IsAdopted;
    NothingAdoptedAtFirst(key);
    assert events[..|events|] == events;
    var n := |events| - 1;
    var before := Run(lower, EMPTY, events[..n]);
    RunKeepsInv(lower, events[..n]);
    AdoptionStep(lower, before, events[n], key);
    if IsAdopted(before, key) {
      i := AdoptedSinceStreakBegan(lower, events[..n], key);
      assert events[..n][..i] == events[..i];
      forall j | i < j <= |events| ensures IsAdopted(Run(lower, EMPTY, events[..j]), key) {
        if j <= n { assert events[..n][..j] == events[..j]; }
      }
    } else {
      i := n;
    }
  }

  /** An update is refused exactly for a note that is too long, else an unknown collection, else an unknown sample. */
  lemma UpdateRefused(t: Tables, u: Update, now: int)
    requires Inv(t)
    ensures var r, known := UpdateMember(t, u, now), exists n :: n in t.collections && t.collections[n] == u.collection;
            && (r == Failed(NoteTooLong) <==> |u.note| > 4000)
            && (r == Failed(MissingCollection) <==> |u.note| <= 4000 && !known)
            && (r == Failed(MissingSample) <==> |u.note| <= 4000 && known && u.sample !in t.samples)
            && (r.Done? <==> |u.note| <= 4000 && known && u.sample in t.samples)
  {
    hide MembersOk, DetailsOk, NextPosition;
    if n :| n in t.collections && t.collections[n] == u.collection { assert u.collection in t.collections.Values; }
  }

  /** `add_only` for an existing member changes nothing, and any update appends at most the member itself. */
  lemma UpdateRefinesTheList(t: Tables, u: Update, now: int, other: int)
    requires Inv(t) && UpdateMember(t, u, now).Done?
    ensures var r := UpdateMember(t, u, now).tables;
            && List(r.members, u.collection) == AppendUnique(List(t.members, u.collection), [u.sample])
            && (other != u.collection ==> List(r.members, other) == List(t.members, other))
            && (u.sample in List(t.members, u.collection) && u.addOnly ==> r == t)
            && (u.sample !in List(t.members, u.collection) || !u.addOnly ==>
                  (u.collection, u.sample) in r.details && r.details[(u.collection, u.sample)].status == u.status
                  && r.details[(u.collection, u.sample)].note == u.note)
            && forall k :: k != (u.collection, u.sample) ==>
                 (k in r.details <==> k in t.details) && (k in t.details ==> r.details[k] == t.details[k])
  {
    hide AppendUnique, List, MembersOk;
    WithMemberRefines(t.members, u.collection, u.sample, other);
    ListHoldsMembers(t.members, u.collection, u.sample);
  }
}
