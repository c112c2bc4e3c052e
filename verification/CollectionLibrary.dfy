/** The database operations on collections and project members, as statements that change the tables one by one. */
module CollectionLibrary {
  import opened Options
  import opened Texts
  import opened CollectionNames
  import opened CollectionTables

  lemma WithNobody(members: seq<Member>, collection: int)
    ensures WithMembers(members, collection, []) == members
  {}

  lemma OneMoreId(members: seq<Member>, collection: int, ids: seq<int>, i: nat)
    requires i < |ids|
    ensures WithMembers(members, collection, ids[..i + 1]) ==
            WithMember(WithMembers(members, collection, ids[..i]), collection, ids[i])
  {
    assert ids[..i + 1][..i] == ids[..i];
  }

  /** The running position stays one above the greatest, so it never has to be read again. */
  lemma NextAfterInsert(members: seq<Member>, collection: int, sample: int, next: int)
    requires next == NextPosition(members, collection)
    ensures NextPosition(members + [Member(collection, sample, next)], collection) == next + 1
    ensures WithMember(members, collection, sample)
         == if IsMember(members, collection, sample) then members else members + [Member(collection, sample, next)]
  {}

  class Library {
    const lower: char -> string
    var samples: set<int>
    var collections: map<string, int>
    var nextCollection: int
    var members: seq<Member>
    var details: map<(int, int), Detail>

    ghost function View(): Tables
      reads this
    {
      Tables(samples, collections, nextCollection, members, details)
    }

    constructor (lower: char -> string)
      ensures this.lower == lower && View() == EMPTY && Inv(View())
    {
      this.lower := lower;
      samples, collections, nextCollection, members, details := {}, map[], 1, [], map[];
    }

    /** `INSERT INTO collections ... ON CONFLICT(name) DO NOTHING`, telling whether a row was inserted. */
    method InsertCollection(name: string) returns (created: bool)
      modifies this`collections, this`nextCollection
      ensures View() == WithCollection(old(View()), name) && created == (name !in old(collections))
      ensures name in collections
    {
      created := name !in collections;
      if created {
        collections := collections[name := nextCollection];
        nextCollection := nextCollection + 1;
      }
    }

    /** `INSERT INTO collection_members ... ON CONFLICT(collection_id, sample_id) DO NOTHING`. */
    method InsertMember(collection: int, sample: int, position: int) returns (inserted: bool)
      modifies this`members
      ensures inserted == !IsMember(old(members), collection, sample)
      ensures members == if inserted then old(members) + [Member(collection, sample, position)] else old(members)
    {
      inserted := !IsMember(members, collection, sample);
      if inserted { members := members + [Member(collection, sample, position)]; }
    }

    method SamplesExist(ids: seq<int>) returns (exist: bool)
      ensures exist <==> forall i :: 0 <= i < |ids| ==> ids[i] in samples
    {
      for i := 0 to |ids|
        invariant forall k :: 0 <= k < i ==> ids[k] in samples
      {
        if ids[i] !in samples { return false; }
      }
      exist := true;
    }

    /** The insert loop: the position is read once and then counted on, skipped ids using none. */
    method InsertMembers(collection: int, ids: seq<int>) returns (inserted: nat)
      modifies this`members
      ensures members == WithMembers(old(members), collection, ids)
      ensures |members| == |old(members)| + inserted
    {
      hide NextPosition, IsMember, WithMember, WithMembers;
      WithNobody(members, collection);
      var nextPosition := NextPosition(members, collection);
      inserted := 0;
      for i := 0 to |ids|
        invariant members == WithMembers(old(members), collection, ids[..i])
        invariant nextPosition == NextPosition(members, collection)
        invariant |members| == |old(members)| + inserted
      {
        OneMoreId(old(members), collection, ids, i);
        NextAfterInsert(members, collection, ids[i], nextPosition);
        var added := InsertMember(collection, ids[i], nextPosition);
        if added {
          inserted := inserted + 1;
          nextPosition := nextPosition + 1;
        }
      }
      assert ids[..|ids|] == ids;
    }

    method AddSamplesToCollection(name: string, ids: seq<int>) returns (result: Outcome<Added>)
      requires Inv(View()) && Lowers(lower)
      modifies this`collections, this`nextCollection, this`members
      ensures Inv(View())
      ensures result == AddSamplesTo(lower, old(View()), name, ids)
      ensures View() == After(old(View()), result)
    {
      hide Inv, WithMembers, Normalized, Lowers;
      ghost var before := View();
      if AddSamplesTo(lower, before, name, ids).Done? { AddKeepsInv(lower, before, name, ids); }
      if ids == [] || |ids| > 100 { return Failed(BadCount); }
      var normalized := NormalizeName(lower, name);
      if normalized.None? { return Failed(EmptyName); }
      var exist := SamplesExist(ids);
      if !exist { return Failed(MissingSample); }
      var n := normalized.value;
      var created := InsertCollection(n);
      var collection := collections[n];
      ghost var start := members;
      var inserted := InsertMembers(collection, ids);
      WithMembersGrows(start, collection, ids);
      result := Done(Tables(samples, collections, nextCollection, members, details),
                     Added(collection, inserted, created));
    }

    method CreateProjectShelf(name: string) returns (result: Outcome<int>)
      requires Inv(View()) && Lowers(lower)
      modifies this`collections, this`nextCollection
      ensures Inv(View())
      ensures result == CreateShelf(lower, old(View()), name)
      ensures View() == After(old(View()), result)
    {
      hide Inv, Normalized, Lowers, Trim;
      var trimmed := Trim(name);
      if trimmed == "" || |trimmed| > 120 { return Failed(InvalidName); }
      var normalized := NormalizeName(lower, trimmed);
      if normalized.None? { return Failed(EmptyName); }
      NewCollectionKeepsInv(View(), normalized.value);
      var _ := InsertCollection(normalized.value);
      result := Done(Tables(samples, collections, nextCollection, members, details), collections[normalized.value]);
    }

    method UpdateProjectMember(update: Update, now: int) returns (result: Outcome<()>)
      requires Inv(View())
      modifies this`members, this`details
      ensures Inv(View())
      ensures result == UpdateMember(old(View()), update, now)
      ensures View() == After(old(View()), result)
    {
      hide Inv;
      ghost var before := View();
      if UpdateMember(before, update, now).Done? { UpdateKeepsInv(before, update, now); }
      if |update.note| > 4000 { return Failed(NoteTooLong); }
      if update.collection !in collections.Values { return Failed(MissingCollection); }
      if !IsMember(members, update.collection, update.sample) && update.sample !in samples {
        return Failed(MissingSample);
      }
      var added := InsertMember(update.collection, update.sample, NextPosition(members, update.collection));
      if added || !update.addOnly {
        var key := (update.collection, update.sample);
        if key !in details {
          var stamp := if update.status.Adopted? then Some(now) else None;
          details := details[key := Detail(update.status, update.note, stamp)];
        } else {
          var stamp :=
            if update.status.Candidate? then None
            else if details[key].status.Adopted? then details[key].adoptedAt
            else Some(now);
          details := details[key := Detail(update.status, update.note, stamp)];
        }
      }
      result := Done(Tables(samples, collections, nextCollection, members, details), ());
    }

    /** Deleting a member row cascades to its details. */
    method RemoveProjectMember(collection: int, sample: int)
      requires Inv(View())
      modifies this`members, this`details
      ensures Inv(View()) && View() == RemoveMember(old(View()), collection, sample)
    {
      RemoveKeepsInv(View(), collection, sample);
      members := WithoutRows(members, (m: Member) => m.collection == collection && m.sample == sample);
      details := details - {(collection, sample)};
    }
  }
}
