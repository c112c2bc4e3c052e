/**
 Promotion of staged provider files into the download root, while I/O may fail at any point and others may add new
 names to the root. What happens around each file is chosen by an arbitrary `Turn`.
 */
module Promotions {
  import opened Options

  datatype Entry = File(content: seq<int>) | Directory

  datatype PromotionError = Conflict | Io

  /** Others' additions before a file is created, and which of the system calls for it succeed. */
  datatype Turn = Turn(additions: map<string, Entry>, opens: bool, creates: bool, copies: bool, written: nat,
                       removes: bool)

  /** `others` gathers what was added by others, and `created` the names this promotion created, in order. */
  datatype Progress = Progress(root: map<string, Entry>, staging: map<string, Entry>, others: map<string, Entry>,
                               created: seq<string>, failed: Option<PromotionError>)

  /** Rollback: the names whose deletion fails, and what others add meanwhile. */
  datatype Cleanup = Cleanup(stuck: set<string>, additions: map<string, Entry>)

  // ---------- The steps ----------

  /** Others only add names that are new. */
  function Interfered(p: Progress, additions: map<string, Entry>): Progress {
    p.(root := additions + p.root, others := p.others + (additions - p.root.Keys))
  }

  function Landed(content: seq<int>, t: Turn): seq<int> {
    if t.copies || |content| <= t.written then content else content[..t.written]
  }

  /** Opening, exclusive creation, copying and removal of one staged file. */
  function Turned(p: Progress, name: string, t: Turn): Progress
    requires name in p.staging && p.staging[name].File?
  {
    var q := Interfered(p, t.additions);
    if !t.opens || !t.creates then q.(failed := Some(Io))
    else if name in q.root then q.(failed := Some(Conflict))
    else
      var r := q.(root := q.root[name := File(Landed(p.staging[name].content, t))], created := q.created + [name]);
      if !t.copies || !t.removes then r.(failed := Some(Io)) else r.(staging := r.staging - {name})
  }

  ghost predicate IsListing(sources: seq<string>, staging: map<string, Entry>) {
    && (forall i, j :: 0 <= i < j < |sources| ==> sources[i] != sources[j])
    && (forall n :: n in staging <==> n in sources)
  }

  predicate AllFiles(staging: map<string, Entry>) { forall n :: n in staging ==> staging[n].File? }

  function Begun(root: map<string, Entry>, staging: map<string, Entry>): Progress {
    Progress(root, staging, map[], [], None)
  }

  /** The state after the first n files, or at the first failure. */
  function Promoted(root: map<string, Entry>, staging: map<string, Entry>, sources: seq<string>, turns: nat -> Turn,
                    n: nat): (p: Progress)
    requires IsListing(sources, staging) && AllFiles(staging) && n <= |sources|
    ensures forall m :: m in p.staging ==> m in staging && p.staging[m] == staging[m]
    ensures forall k :: n <= k < |sources| ==> sources[k] in p.staging
  {
    if n == 0 then Begun(root, staging)
    else
      var p := Promoted(root, staging, sources, turns, n - 1);
      if p.failed.Some? then p else Turned(p, sources[n - 1], turns(n - 1))
  }

  /** The rollback guard deletes what was created, as far as the deletions succeed. */
  function RolledBack(p: Progress, c: Cleanup): Progress {
    Interfered(p.(root := p.root - (set n | n in p.created && n !in c.stuck)), c.additions)
  }

  predicate NoCollision(key: string -> string, sources: seq<string>, root: map<string, Entry>) {
    && (forall i :: 0 <= i < |sources| ==> forall n :: n in root ==> key(n) != key(sources[i]))
    && (forall i, j :: 0 <= i < j < |sources| ==> key(sources[i]) != key(sources[j]))
  }

  function Outcome(key: string -> string, root: map<string, Entry>, staging: map<string, Entry>, sources: seq<string>,
                   turns: nat -> Turn, c: Cleanup): Progress
    requires IsListing(sources, staging)
  {
    if !AllFiles(staging) then Begun(root, staging).(failed := Some(Io))
    else if !NoCollision(key, sources, root) then Begun(root, staging).(failed := Some(Conflict))
    else
      var p := Promoted(root, staging, sources, turns, |sources|);
      if p.failed.Some? then RolledBack(p, c) else p
  }

  // ---------- What the promotion guarantees ----------

  /**
   Where name n of the root comes from: it was there before and is unchanged, or others added it, or it is present
   exactly if this promotion created it.
   */
  predicate AccountedAt(p: Progress, root0: map<string, Entry>, n: string) {
    if n in root0 then n !in p.others && n !in p.created && n in p.root && p.root[n] == root0[n]
    else if n in p.others then n !in p.created && n in p.root && p.root[n] == p.others[n]
    else n in p.root <==> n in p.created
  }

  ghost predicate Accounted(p: Progress, root0: map<string, Entry>) { forall n :: AccountedAt(p, root0, n) }

  lemma InterferedAt(p: Progress, root0: map<string, Entry>, additions: map<string, Entry>, n: string)
    requires AccountedAt(p, root0, n)
    ensures AccountedAt(Interfered(p, additions), root0, n)
    ensures n in p.root ==> n in Interfered(p, additions).root && Interfered(p, additions).root[n] == p.root[n]
  {
  }

  lemma CreatedStay(p: Progress, additions: map<string, Entry>)
    ensures var q := Interfered(p, additions); q.created == p.created && q.staging == p.staging && q.failed == p.failed
  {
  }

  lemma TurnedAt(p: Progress, root0: map<string, Entry>, name: string, t: Turn, n: string)
    requires AccountedAt(p, root0, n) && name in p.staging && p.staging[name].File?
    ensures AccountedAt(Turned(p, name, t), root0, n)
    ensures n in p.root ==> n in Turned(p, name, t).root && Turned(p, name, t).root[n] == p.root[n]
  {
    hide Landed, Interfered;
    InterferedAt(p, root0, t.additions, n);
    CreatedStay(p, t.additions);
  }

  /** A turn either succeeds and moves its file, or fails and leaves the staging directory alone. */
  lemma TurnMovesOneFile(p: Progress, name: string, t: Turn)
    requires name in p.staging && p.staging[name].File? && p.failed.None?
    ensures var q := Turned(p, name, t);
            && (q.failed.None? ==> name in q.root && q.root[name] == p.staging[name] && q.created == p.created + [name]
                                   && q.staging == p.staging - {name})
            && (q.failed.Some? ==>
                q.staging == p.staging && (q.created == p.created || q.created == p.created + [name]))
            && (q.failed.None? <==>
                t.opens && t.creates && t.copies && t.removes && name !in p.root && name !in t.additions)
  {
    CreatedStay(p, t.additions);
    assert name in Interfered(p, t.additions).root <==> name in p.root || name in t.additions;
    hide Interfered;
  }

  /** The first j files have moved; at most one more has been created. */
  ghost predicate Moved(p: Progress, staging0: map<string, Entry>, sources: seq<string>, j: nat)
    requires j <= |sources|
  {
    && (forall n :: n in p.staging <==> n in staging0 && n !in sources[..j])
    && (forall k :: 0 <= k < j ==>
        sources[k] in staging0 && sources[k] in p.root && p.root[sources[k]] == staging0[sources[k]])
    && (p.created == sources[..j] || (p.failed.Some? && j < |sources| && p.created == sources[..j] + [sources[j]]))
  }

  lemma FailedTurn(p: Progress, q: Progress, staging0: map<string, Entry>, sources: seq<string>, n: nat)
    requires 0 < n <= |sources| && Moved(p, staging0, sources, n - 1) && p.failed.None? && q.failed.Some?
    requires q.staging == p.staging && (q.created == p.created || q.created == p.created + [sources[n - 1]])
    requires forall m :: m in p.root ==> m in q.root && q.root[m] == p.root[m]
    ensures Moved(q, staging0, sources, n - 1)
  {
  }

  lemma OneMoreMoved(p: Progress, q: Progress, staging0: map<string, Entry>, sources: seq<string>, n: nat)
    requires 0 < n <= |sources| && Moved(p, staging0, sources, n - 1) && p.failed.None?
    requires var name := sources[n - 1];
             && name in staging0 && name in q.root && q.root[name] == staging0[name]
             && q.created == p.created + [name] && q.staging == p.staging - {name}
    requires forall m :: m in p.root ==> m in q.root && q.root[m] == p.root[m]
    ensures Moved(q, staging0, sources, n)
  {
    assert sources[..n] == sources[..n - 1] + [sources[n - 1]];
  }

  lemma OneTurn(root0: map<string, Entry>, staging0: map<string, Entry>, sources: seq<string>, p: Progress, t: Turn,
                n: nat)
      returns (j: nat)
    requires 0 < n <= |sources| && Accounted(p, root0) && Moved(p, staging0, sources, n - 1) && p.failed.None?
    requires var name := sources[n - 1];
             name in staging0 && name in p.staging && p.staging[name] == staging0[name] && staging0[name].File?
    ensures var q := Turned(p, sources[n - 1], t);
            && Accounted(q, root0) && j == (if q.failed.None? then n else n - 1) && Moved(q, staging0, sources, j)
  {
    hide Turned, AccountedAt, Moved;
    var name := sources[n - 1];
    var q := Turned(p, name, t);
    forall m ensures AccountedAt(q, root0, m) && (m in p.root ==> m in q.root && q.root[m] == p.root[m]) {
      TurnedAt(p, root0, name, t, m);
    }
    TurnMovesOneFile(p, name, t);
    if q.failed.None? {
      j := n;
      OneMoreMoved(p, q, staging0, sources, n);
    } else {
      j := n - 1;
      FailedTurn(p, q, staging0, sources, n);
    }
  }

  lemma NothingPromoted(root0: map<string, Entry>, staging0: map<string, Entry>, sources: seq<string>)
    ensures Accounted(Begun(root0, staging0), root0) && Moved(Begun(root0, staging0), staging0, sources, 0)
  {}

  lemma PromotedStart(root0: map<string, Entry>, staging0: map<string, Entry>, sources: seq<string>, turns: nat -> Turn)
    requires IsListing(sources, staging0) && AllFiles(staging0)
    ensures Promoted(root0, staging0, sources, turns, 0) == Begun(root0, staging0)
  {}

  lemma PromotedStep(root0: map<string, Entry>, staging0: map<string, Entry>, sources: seq<string>, turns: nat -> Turn,
                     k: nat)
    requires IsListing(sources, staging0) && AllFiles(staging0) && k < |sources|
    ensures var p := Promoted(root0, staging0, sources, turns, k);
            && sources[k] in p.staging && p.staging[sources[k]].File?
            && sources[k] in staging0 && p.staging[sources[k]] == staging0[sources[k]]
            && Promoted(root0, staging0, sources, turns, k + 1) ==
               if p.failed.Some? then p else Turned(p, sources[k], turns(k))
  {
    hide Turned;
  }

  /** Along the way everything in the root is accounted for, and a prefix of the files has moved. */
  lemma {:induction false} PromotedIsAccounted(root0: map<string, Entry>, staging0: map<string, Entry>,
                                               sources: seq<string>, turns: nat -> Turn, n: nat) returns (j: nat)
    requires IsListing(sources, staging0) && AllFiles(staging0) && n <= |sources|
    ensures var p := Promoted(root0, staging0, sources, turns, n);
            && Accounted(p, root0) && j <= n && (p.failed.None? ==> j == n) && Moved(p, staging0, sources, j)
            && (p.failed.Some? ==> j < n && Promoted(root0, staging0, sources, turns, j).failed.None?
                                   && Promoted(root0, staging0, sources, turns, j + 1).failed.Some?)
  {
    hide Turned, Accounted, Moved, IsListing, AllFiles, Promoted;
    if n == 0 {
      j := 0;
      PromotedStart(root0, staging0, sources, turns);
      NothingPromoted(root0, staging0, sources);
    } else {
      j := PromotedIsAccounted(root0, staging0, sources, turns, n - 1);
      var p := Promoted(root0, staging0, sources, turns, n - 1);
      PromotedStep(root0, staging0, sources, turns, n - 1);
      if p.failed.None? { j := OneTurn(root0, staging0, sources, p, turns(n - 1), n); }
    }
  }

  /** Success: nothing is staged any more, and the root is the old root, others' additions and the staged files. */
  ghost predicate Succeeded(p: Progress, root0: map<string, Entry>, staging0: map<string, Entry>, n: string) {
    && n !in p.staging
    && (n in p.root <==> n in root0 || n in p.others || n in staging0)
    && (n in staging0 ==> n !in root0 && n !in p.others && p.root[n] == staging0[n])
    && (n in p.others ==> n !in root0 && p.root[n] == p.others[n])
  }

  /** Failure: of this promotion's files only those remain whose deletion failed. */
  ghost predicate GivenUp(p: Progress, root0: map<string, Entry>, staging0: map<string, Entry>, stuck: set<string>,
                          n: string) {
    && (n in p.staging ==> n in staging0 && p.staging[n] == staging0[n])
    && (n in p.root && n !in root0 && n !in p.others ==> n in stuck && n in staging0)
    && (n in p.others ==> n !in root0 && n in p.root && p.root[n] == p.others[n])
  }

  lemma MovedAt(p: Progress, staging0: map<string, Entry>, sources: seq<string>, j: nat, n: string)
    requires IsListing(sources, staging0) && j <= |sources| && Moved(p, staging0, sources, j)
    ensures n in p.created ==> n in staging0
    ensures j == |sources| ==>
            n !in p.staging && (n in p.created <==> n in staging0) &&
              (n in staging0 ==> n in p.root && p.root[n] == staging0[n])
  {}

  lemma RolledBackAt(p: Progress, root0: map<string, Entry>, c: Cleanup, n: string)
    requires AccountedAt(p, root0, n)
    ensures var r := RolledBack(p, c);
            && r.staging == p.staging && r.failed == p.failed
            && (n in root0 ==> n in r.root && r.root[n] == root0[n] && n !in r.others)
            && (n in r.others ==> n in r.root && r.root[n] == r.others[n])
            && (n in r.root && n !in root0 && n !in r.others ==> n in c.stuck && n in p.created)
  {
  }

  /**
   For every failure point and every concurrent addition: no entry of the old root changes; success gives exactly the
   union; failure leaves none of the own files whose deletion succeeds.
   */
  lemma PromotionIsAllOrNothing(key: string -> string, root0: map<string, Entry>, staging0: map<string, Entry>,
                                sources: seq<string>, turns: nat -> Turn, c: Cleanup, n: string)
    requires IsListing(sources, staging0)
    ensures var p := Outcome(key, root0, staging0, sources, turns, c);
            && (n in root0 ==> n in p.root && p.root[n] == root0[n])
            && (p.failed.None? ==> Succeeded(p, root0, staging0, n))
            && (p.failed.Some? ==> GivenUp(p, root0, staging0, c.stuck, n))
  {
    hide Promoted, RolledBack, NoCollision, Moved;
    if AllFiles(staging0) && NoCollision(key, sources, root0) {
      var j := PromotedIsAccounted(root0, staging0, sources, turns, |sources|);
      var p := Promoted(root0, staging0, sources, turns, |sources|);
      assert AccountedAt(p, root0, n);
      MovedAt(p, staging0, sources, j, n);
      if p.failed.Some? { RolledBackAt(p, root0, c, n); }
    }
  }

  // ---------- What a failure loses ----------

  /** Others have added the name in one of the first n turns. */
  ghost predicate Added(turns: nat -> Turn, n: nat, name: string) {
    exists i: nat :: i < n && name in turns(i).additions
  }

  /** The turn of file k goes through: every call for it succeeds, and nobody has used its name by then. */
  ghost predicate Goes(root0: map<string, Entry>, sources: seq<string>, turns: nat -> Turn, k: nat)
    requires k < |sources|
  {
    var t := turns(k);
    t.opens && t.creates && t.copies && t.removes && sources[k] !in root0 && !Added(turns, k + 1, sources[k])
  }

  lemma AddedStep(turns: nat -> Turn, n: nat, name: string)
    ensures Added(turns, n + 1, name) <==> Added(turns, n, name) || name in turns(n).additions
    ensures !Added(turns, 0, name)
  {
    if name in turns(n).additions { assert n < n + 1 && name in turns(n).additions; }
  }

  lemma TurnedRoot(p: Progress, name: string, t: Turn, n: string)
    requires name in p.staging && p.staging[name].File? && n != name
    ensures n in Turned(p, name, t).root <==> n in p.root || n in t.additions
  {}

  /** A name not yet promoted is in the root if it was there before or others have added it. */
  lemma {:induction false} RootHolds(root0: map<string, Entry>, staging0: map<string, Entry>, sources: seq<string>,
                                     turns: nat -> Turn, n: nat, name: string)
    requires IsListing(sources, staging0) && AllFiles(staging0) && n <= |sources| && name !in sources[..n]
    requires Promoted(root0, staging0, sources, turns, n).failed.None?
    ensures name in Promoted(root0, staging0, sources, turns, n).root <==> name in root0 || Added(turns, n, name)
  {
    hide Turned, IsListing, AllFiles, Added, Promoted;
    if n == 0 {
      PromotedStart(root0, staging0, sources, turns);
      AddedStep(turns, 0, name);
    } else {
      assert sources[..n] == sources[..n - 1] + [sources[n - 1]];
      var p := Promoted(root0, staging0, sources, turns, n - 1);
      PromotedStep(root0, staging0, sources, turns, n - 1);
      RootHolds(root0, staging0, sources, turns, n - 1, name);
      TurnedRoot(p, sources[n - 1], turns(n - 1), name);
      AddedStep(turns, n - 1, name);
    }
  }

  lemma NotYetPromoted(staging0: map<string, Entry>, sources: seq<string>, k: nat)
    requires IsListing(sources, staging0) && k < |sources|
    ensures sources[k] !in sources[..k]
  {}

  lemma TurnGoesIff(root0: map<string, Entry>, staging0: map<string, Entry>, sources: seq<string>, turns: nat -> Turn,
                    k: nat)
    requires IsListing(sources, staging0) && AllFiles(staging0) && k < |sources|
    requires Promoted(root0, staging0, sources, turns, k).failed.None?
    ensures Promoted(root0, staging0, sources, turns, k + 1).failed.None? <==> Goes(root0, sources, turns, k)
  {
    hide Turned, AllFiles, Added, IsListing, Promoted;
    var p, name := Promoted(root0, staging0, sources, turns, k), sources[k];
    PromotedStep(root0, staging0, sources, turns, k);
    NotYetPromoted(staging0, sources, k);
    RootHolds(root0, staging0, sources, turns, k, name);
    TurnMovesOneFile(p, name, turns(k));
    AddedStep(turns, k, name);
  }

  /** The loop has not failed exactly when every turn so far went through. */
  lemma {:induction false} UnfailedIff(root0: map<string, Entry>, staging0: map<string, Entry>, sources: seq<string>,
                                       turns: nat -> Turn, n: nat)
    requires IsListing(sources, staging0) && AllFiles(staging0) && n <= |sources|
    ensures Promoted(root0, staging0, sources, turns, n).failed.None? <==>
            forall k :: 0 <= k < n ==> Goes(root0, sources, turns, k)
  {
    hide Turned, AllFiles, Goes, IsListing, Promoted;
    if n == 0 {
      PromotedStart(root0, staging0, sources, turns);
    } else {
      UnfailedIff(root0, staging0, sources, turns, n - 1);
      PromotedStep(root0, staging0, sources, turns, n - 1);
      if Promoted(root0, staging0, sources, turns, n - 1).failed.None? {
        TurnGoesIff(root0, staging0, sources, turns, n - 1);
      }
    }
  }

  lemma StagingStays(p: Progress, c: Cleanup)
    ensures RolledBack(p, c).staging == p.staging && RolledBack(p, c).failed == p.failed
  {}

  lemma CreatedAfterRollback(p: Progress, c: Cleanup, n: string)
    requires n in p.created && n in p.root
    ensures n in RolledBack(p, c).root <==> n in c.stuck || n in c.additions
  {}

  /**
   When turn j is the first that fails, the files before it have left the staging directory and the others have not.
   A file is then in neither directory exactly when it is one of those before, its deletion succeeds, and nobody uses
   its name again.
   */
  lemma FilesBeforeTheFailureAreLost(key: string -> string, root0: map<string, Entry>, staging0: map<string, Entry>,
                                     sources: seq<string>, turns: nat -> Turn, c: Cleanup, j: nat)
    requires IsListing(sources, staging0) && AllFiles(staging0) && NoCollision(key, sources, root0)
    requires j < |sources| && !Goes(root0, sources, turns, j) &&
             forall k :: 0 <= k < j ==> Goes(root0, sources, turns, k)
    ensures var p := Outcome(key, root0, staging0, sources, turns, c);
            && p.failed.Some?
            && (forall n :: n in p.staging <==> n in staging0 && n !in sources[..j])
            && (forall k :: 0 <= k < |sources| ==>
                  (sources[k] !in p.staging && sources[k] !in p.root <==>
                   k < j && sources[k] !in c.stuck && sources[k] !in c.additions))
  {
    hide Promoted, NoCollision, Goes, Accounted, AllFiles;
    var p := Promoted(root0, staging0, sources, turns, |sources|);
    UnfailedIff(root0, staging0, sources, turns, |sources|);
    var at := PromotedIsAccounted(root0, staging0, sources, turns, |sources|);
    UnfailedIff(root0, staging0, sources, turns, at);
    UnfailedIff(root0, staging0, sources, turns, at + 1);
    assert at == j;
    forall k | 0 <= k < |sources|
      ensures sources[k] in staging0 && (sources[k] in sources[..j] <==> k < j)
      ensures k < j ==> (sources[k] in RolledBack(p, c).root <==> sources[k] in c.stuck || sources[k] in c.additions)
    {
      if k < j {
        assert sources[..j][k] == sources[k] && p.created[k] == sources[k];
        CreatedAfterRollback(p, c, sources[k]);
      }
    }
    StagingStays(p, c);
  }

  /** A failed promotion has a first failing turn. */
  lemma FirstFailingTurn(root0: map<string, Entry>, staging0: map<string, Entry>, sources: seq<string>,
                         turns: nat -> Turn) returns (j: nat)
    requires IsListing(sources, staging0) && AllFiles(staging0)
    requires Promoted(root0, staging0, sources, turns, |sources|).failed.Some?
    ensures j < |sources| && !Goes(root0, sources, turns, j) &&
            forall k :: 0 <= k < j ==> Goes(root0, sources, turns, k)
  {
    hide Promoted, Goes;
    UnfailedIff(root0, staging0, sources, turns, |sources|);
    j := PromotedIsAccounted(root0, staging0, sources, turns, |sources|);
    UnfailedIff(root0, staging0, sources, turns, j);
    UnfailedIff(root0, staging0, sources, turns, j + 1);
  }

  lemma SameStaging(root0: map<string, Entry>, staging0: map<string, Entry>, sources: seq<string>, turns: nat -> Turn,
                    j: nat)
    requires IsListing(sources, staging0) && AllFiles(staging0) && j < |sources|
    requires forall n :: n in Promoted(root0, staging0, sources, turns, |sources|).staging <==>
             n in staging0 && n !in sources[..j]
    ensures Promoted(root0, staging0, sources, turns, |sources|).staging == staging0 <==> j == 0
  {
    var p := Promoted(root0, staging0, sources, turns, |sources|);
    if j == 0 {
      assert sources[..0] == [];
      assert p.staging == staging0;
    } else {
      assert sources[0] in sources[..j] && sources[0] in staging0;
    }
  }

  /**
   A failed promotion leaves every staged file in place exactly when it fails before the copying or in the first turn;
   with at most one staged file it always does.
   */
  lemma StagingSurvivesIff(key: string -> string, root0: map<string, Entry>, staging0: map<string, Entry>,
                           sources: seq<string>, turns: nat -> Turn, c: Cleanup)
    requires IsListing(sources, staging0) && Outcome(key, root0, staging0, sources, turns, c).failed.Some?
    ensures Outcome(key, root0, staging0, sources, turns, c).staging == staging0 <==>
            !AllFiles(staging0) || !NoCollision(key, sources, root0) || !Goes(root0, sources, turns, 0)
    ensures |sources| <= 1 ==> Outcome(key, root0, staging0, sources, turns, c).staging == staging0
  {
    hide Promoted, NoCollision, Goes, RolledBack;
    if AllFiles(staging0) && NoCollision(key, sources, root0) {
      var p := Promoted(root0, staging0, sources, turns, |sources|);
      StagingStays(p, c);
      var j := FirstFailingTurn(root0, staging0, sources, turns);
      FilesBeforeTheFailureAreLost(key, root0, staging0, sources, turns, c, j);
      SameStaging(root0, staging0, sources, turns, j);
    }
  }

  // ---------- What a failure says, and what it leaves ----------

  /** Two staged names, or a staged name and one of the root, that the file system may take for the same. */
  ghost predicate Clash(key: string -> string, root0: map<string, Entry>, staging0: map<string, Entry>) {
    || (exists m, n :: m in staging0 && n in root0 && key(m) == key(n))
    || (exists m, n :: m in staging0 && n in staging0 && m != n && key(m) == key(n))
  }

  lemma CollisionIsClash(key: string -> string, root0: map<string, Entry>, staging0: map<string, Entry>,
                         sources: seq<string>)
    requires IsListing(sources, staging0)
    ensures NoCollision(key, sources, root0) <==> !Clash(key, root0, staging0)
  {
    if m, n :| m in staging0 && n in root0 && key(m) == key(n) {
      var i :| 0 <= i < |sources| && sources[i] == m;
      assert key(n) == key(sources[i]);
    } else if m, n :| m in staging0 && n in staging0 && m != n && key(m) == key(n) {
      var i :| 0 <= i < |sources| && sources[i] == m;
      var j :| 0 <= j < |sources| && sources[j] == n;
      assert key(sources[i]) == key(sources[j]) && i != j;
    }
    if !NoCollision(key, sources, root0) {
      if i, n :| 0 <= i < |sources| && n in root0 && key(n) == key(sources[i]) {
        assert sources[i] in staging0;
      } else {
        var i, j :| 0 <= i < j < |sources| && key(sources[i]) == key(sources[j]);
        assert sources[i] in staging0 && sources[j] in staging0;
      }
    }
  }

  /** Before anything is copied: a staged entry that is no file is refused, and so is any clash of names. */
  lemma RefusedBeforeCopying(key: string -> string, root0: map<string, Entry>, staging0: map<string, Entry>,
                             sources: seq<string>, turns: nat -> Turn, c: Cleanup)
    requires IsListing(sources, staging0)
    ensures var p := Outcome(key, root0, staging0, sources, turns, c);
            && (!AllFiles(staging0) ==> p == Begun(root0, staging0).(failed := Some(Io)))
            && (AllFiles(staging0) && Clash(key, root0, staging0) ==>
                  p == Begun(root0, staging0).(failed := Some(Conflict)))
            && (p.failed.None? ==> AllFiles(staging0) && !Clash(key, root0, staging0))
  {
    hide Promoted, RolledBack, NoCollision, Clash;
    CollisionIsClash(key, root0, staging0, sources);
  }

  lemma TurnSays(p: Progress, name: string, t: Turn)
    requires name in p.staging && p.staging[name].File? && p.failed.None?
    ensures Turned(p, name, t).failed.Some? ==>
              Turned(p, name, t).failed ==
              Some(if t.opens && t.creates && (name in p.root || name in t.additions) then Conflict else Io)
  {
    assert name in Interfered(p, t.additions).root <==> name in p.root || name in t.additions;
    hide Interfered, Landed;
  }

  lemma {:induction false} PromotionStopped(root0: map<string, Entry>, staging0: map<string, Entry>,
                                            sources: seq<string>, turns: nat -> Turn, n: nat)
    requires IsListing(sources, staging0) && AllFiles(staging0) && n <= |sources|
    requires Promoted(root0, staging0, sources, turns, n).failed.Some?
    ensures Promoted(root0, staging0, sources, turns, |sources|) == Promoted(root0, staging0, sources, turns, n)
    decreases |sources| - n
  {
    hide Turned, IsListing, AllFiles;
    if n < |sources| { PromotionStopped(root0, staging0, sources, turns, n + 1); }
  }

  /** The error is a conflict exactly if the first failing turn found its name in use, and an I/O error otherwise. */
  lemma FailureSays(key: string -> string, root0: map<string, Entry>, staging0: map<string, Entry>,
                    sources: seq<string>, turns: nat -> Turn, c: Cleanup, j: nat)
    requires IsListing(sources, staging0) && AllFiles(staging0) && !Clash(key, root0, staging0)
    requires j < |sources| && !Goes(root0, sources, turns, j) &&
             forall k :: 0 <= k < j ==> Goes(root0, sources, turns, k)
    ensures var used := sources[j] in root0 || Added(turns, j + 1, sources[j]);
            Outcome(key, root0, staging0, sources, turns, c).failed ==
            Some(if turns(j).opens && turns(j).creates && used then Conflict else Io)
  {
    hide Promoted, NoCollision, Goes, RolledBack, Clash, Turned, AllFiles, IsListing, Added;
    var name := sources[j];
    CollisionIsClash(key, root0, staging0, sources);
    UnfailedIff(root0, staging0, sources, turns, j);
    var p := Promoted(root0, staging0, sources, turns, j);
    PromotedStep(root0, staging0, sources, turns, j);
    NotYetPromoted(staging0, sources, j);
    RootHolds(root0, staging0, sources, turns, j, name);
    AddedStep(turns, j, name);
    TurnSays(p, name, turns(j));
    TurnGoesIff(root0, staging0, sources, turns, j);
    PromotionStopped(root0, staging0, sources, turns, j + 1);
    StagingStays(Promoted(root0, staging0, sources, turns, |sources|), c);
  }

  predicate IsBeginning(root: map<string, Entry>, staging0: map<string, Entry>, n: string) {
    n in root && n in staging0 && root[n].File? && staging0[n].File? && root[n].content <= staging0[n].content
  }

  /** What has been created holds a beginning of the staged file. */
  ghost predicate Beginnings(p: Progress, staging0: map<string, Entry>) {
    forall n :: n in p.created ==> IsBeginning(p.root, staging0, n)
  }

  lemma TurnCreates(p: Progress, name: string, t: Turn)
    requires name in p.staging && p.staging[name].File?
    ensures var q := Turned(p, name, t);
            q.created == p.created || (q.created == p.created + [name] && IsBeginning(q.root, p.staging, name))
  {
    CreatedStay(p, t.additions);
    hide Interfered;
  }

  lemma BeginningStays(root: map<string, Entry>, after: map<string, Entry>, staging0: map<string, Entry>, n: string)
    requires IsBeginning(root, staging0, n) && (n in root ==> n in after && after[n] == root[n])
    ensures IsBeginning(after, staging0, n)
  {
  }

  lemma SameBeginning(root: map<string, Entry>, staging: map<string, Entry>, staging0: map<string, Entry>, n: string)
    requires IsBeginning(root, staging, n) && n in staging0 && n in staging && staging[n] == staging0[n]
    ensures IsBeginning(root, staging0, n)
  {
  }

  lemma TurnKeepsBeginnings(p: Progress, root0: map<string, Entry>, staging0: map<string, Entry>, name: string, t: Turn)
    requires Accounted(p, root0) && Beginnings(p, staging0)
    requires name in p.staging && name in staging0 && p.staging[name] == staging0[name] && p.staging[name].File?
    ensures Beginnings(Turned(p, name, t), staging0)
  {
    hide Turned, IsBeginning, AccountedAt;
    TurnCreates(p, name, t);
    var q := Turned(p, name, t);
    forall m | m in q.created ensures IsBeginning(q.root, staging0, m) {
      if m in p.created {
        assert AccountedAt(p, root0, m);
        TurnedAt(p, root0, name, t, m);
        BeginningStays(p.root, q.root, staging0, m);
      } else {
        SameBeginning(q.root, p.staging, staging0, m);
      }
    }
  }

  lemma NothingBegun(root0: map<string, Entry>, staging0: map<string, Entry>)
    ensures Beginnings(Begun(root0, staging0), staging0)
  {
  }

  lemma {:induction false} CreatedAreBeginnings(root0: map<string, Entry>, staging0: map<string, Entry>,
                                                sources: seq<string>, turns: nat -> Turn, n: nat)
    requires IsListing(sources, staging0) && AllFiles(staging0) && n <= |sources|
    ensures Beginnings(Promoted(root0, staging0, sources, turns, n), staging0)
  {
    hide Turned, AllFiles, IsListing, Promoted, Beginnings, Accounted, Moved;
    if n == 0 {
      PromotedStart(root0, staging0, sources, turns);
      NothingBegun(root0, staging0);
    } else {
      var p := Promoted(root0, staging0, sources, turns, n - 1);
      CreatedAreBeginnings(root0, staging0, sources, turns, n - 1);
      PromotedStep(root0, staging0, sources, turns, n - 1);
      var at := PromotedIsAccounted(root0, staging0, sources, turns, n - 1);
      if p.failed.None? { TurnKeepsBeginnings(p, root0, staging0, sources[n - 1], turns(n - 1)); }
    }
  }

  lemma RolledBackContent(p: Progress, c: Cleanup, n: string)
    requires n in p.root && n in RolledBack(p, c).root && n !in RolledBack(p, c).others
    ensures RolledBack(p, c).root[n] == p.root[n]
  {
  }

  lemma CreatedIsThere(p: Progress, staging0: map<string, Entry>, n: string)
    requires Beginnings(p, staging0) && n in p.created
    ensures n in p.root && IsBeginning(p.root, staging0, n)
  {
  }

  lemma RolledBackBeginning(p: Progress, root0: map<string, Entry>, staging0: map<string, Entry>, c: Cleanup, n: string)
    requires AccountedAt(p, root0, n) && Beginnings(p, staging0)
    ensures var r := RolledBack(p, c);
            n in r.root && n !in root0 && n !in r.others ==> IsBeginning(r.root, staging0, n)
  {
    hide RolledBack, AccountedAt, IsBeginning;
    var r := RolledBack(p, c);
    if n in r.root && n !in root0 && n !in r.others {
      RolledBackAt(p, root0, c, n);
      CreatedIsThere(p, staging0, n);
      RolledBackContent(p, c, n);
      BeginningStays(p.root, r.root, staging0, n);
    }
  }

  /** What is in the root beside old entries and those of others is a beginning of the staged file of that name. */
  lemma LeftoversAreBeginnings(key: string -> string, root0: map<string, Entry>, staging0: map<string, Entry>,
                               sources: seq<string>, turns: nat -> Turn, c: Cleanup, n: string)
    requires IsListing(sources, staging0)
    ensures var p := Outcome(key, root0, staging0, sources, turns, c);
            n in p.root && n !in root0 && n !in p.others ==> IsBeginning(p.root, staging0, n)
  {
    hide Promoted, NoCollision, RolledBack, IsBeginning, Beginnings, Moved, AllFiles, IsListing;
    if AllFiles(staging0) && NoCollision(key, sources, root0) {
      var p := Promoted(root0, staging0, sources, turns, |sources|);
      var at := PromotedIsAccounted(root0, staging0, sources, turns, |sources|);
      assert AccountedAt(p, root0, n);
      CreatedAreBeginnings(root0, staging0, sources, turns, |sources|);
      RolledBackBeginning(p, root0, staging0, c, n);
      if n in p.created { CreatedIsThere(p, staging0, n); }
    }
  }

  lemma TwoTurns(root: map<string, Entry>, staging: map<string, Entry>, sources: seq<string>, turns: nat -> Turn)
    requires IsListing(sources, staging) && AllFiles(staging) && |sources| == 2
    ensures var p1 := Promoted(root, staging, sources, turns, 1);
            && p1 == Turned(Begun(root, staging), sources[0], turns(0))
            && (p1.failed.None? ==> Promoted(root, staging, sources, turns, 2) == Turned(p1, sources[1], turns(1)))
  {
    hide Turned;
  }

  lemma DeletedIsGone(p: Progress, n: string)
    requires n in p.created
    ensures var r := RolledBack(p, Cleanup({}, map[])); n !in r.root && r.staging == p.staging && r.failed == p.failed
  {
  }

  /** With the second of two files failing to open, the first file ends up nowhere. */
  lemma FirstFileIsLost(a: Entry, b: Entry)
    requires a.File? && b.File?
    ensures var turns := (i: nat) => Turn(map[], i == 0, true, true, 0, true);
            var staging := map["a" := a, "b" := b];
            IsListing(["a", "b"], staging) && AllFiles(staging) &&
            var p := Outcome(n => n, map[], staging, ["a", "b"], turns, Cleanup({}, map[]));
            p.failed.Some? && "a" !in p.staging && "a" !in p.root
  {
    hide Turned, Promoted, Interfered;
    var turns := (i: nat) => Turn(map[], i == 0, true, true, 0, true);
    var staging := map["a" := a, "b" := b];
    var sources := ["a", "b"];
    var p0 := Begun(map[], staging);
    TwoTurns(map[], staging, sources, turns);
    TurnMovesOneFile(p0, "a", turns(0));
    var p1 := Turned(p0, "a", turns(0));
    TurnMovesOneFile(p1, "b", turns(1));
    var p2 := Turned(p1, "b", turns(1));
    assert "a" in p2.created;
    DeletedIsGone(p2, "a");
  }

  // ---------- The directories themselves ----------

  lemma StillAFile(root: map<string, Entry>, staging: map<string, Entry>, sources: seq<string>, turns: nat -> Turn,
                   i: nat)
    requires IsListing(sources, staging) && AllFiles(staging) && i < |sources|
    ensures var p := Promoted(root, staging, sources, turns, i); sources[i] in p.staging && p.staging[sources[i]].File?
  {}

  lemma RollBackKeepsFailure(p: Progress, c: Cleanup)
    ensures RolledBack(p.(failed := None), c).(failed := p.failed) == RolledBack(p, c)
  {
  }

  lemma CollisionFound(key: string -> string, sources: seq<string>, root: map<string, Entry>, i: nat)
    requires i < |sources|
    requires (exists n :: n in root && key(n) == key(sources[i])) ||
             exists j :: 0 <= j < i && key(sources[j]) == key(sources[i])
    ensures !NoCollision(key, sources, root)
  {
  }

  class ImportDirectories {
    var root: map<string, Entry>
    var staging: map<string, Entry>
    var created: seq<string>
    ghost var others: map<string, Entry>

    ghost function View(failed: Option<PromotionError>): Progress
      reads this
    {
      Progress(root, staging, others, created, failed)
    }

    /** What others do in the meantime. */
    method LetOthersIn(additions: map<string, Entry>)
      modifies this`root, this`others
      ensures View(None) == Interfered(old(View(None)), additions)
    {
      others := others + (additions - root.Keys);
      root := additions + root;
    }

    method CopyWithoutOverwrite(source: string, t: Turn) returns (failed: Option<PromotionError>)
      requires source in staging && staging[source].File?
      modifies this`root, this`others, this`created
      ensures var q := Interfered(old(View(None)), t.additions);
              if !t.opens || !t.creates then failed == Some(Io) && View(None) == q
              else if source in q.root then failed == Some(Conflict) && View(None) == q
              else failed == (if t.copies then None else Some(Io)) &&
                   View(None) == q.(root := q.root[source := File(Landed(staging[source].content, t))],
                                    created := q.created + [source])
    {
      LetOthersIn(t.additions);
      if !t.opens { return Some(Io); }
      if !t.creates { return Some(Io); }
      if source in root { return Some(Conflict); }
      root := root[source := File([])];
      created := created + [source];
      root := root[source := File(Landed(staging[source].content, t))];
      failed := if t.copies then None else Some(Io);
    }

    method PreflightCollisions(key: string -> string, sources: seq<string>) returns (clear: bool)
      ensures clear <==> NoCollision(key, sources, root)
    {
      var names := set n | n in root.Keys :: key(n);
      for i := 0 to |sources|
        invariant forall k :: k in names <==>
                  (exists n :: n in root && key(n) == k) || exists j :: 0 <= j < i && key(sources[j]) == k
        invariant NoCollision(key, sources[..i], root)
      {
        if key(sources[i]) in names {
          CollisionFound(key, sources, root, i);
          return false;
        }
        names := names + {key(sources[i])};
        assert sources[..i + 1] == sources[..i] + [sources[i]];
      }
      assert sources[..|sources|] == sources;
      clear := true;
    }

    method RollBack(c: Cleanup)
      modifies this`root, this`others
      ensures View(None) == RolledBack(old(View(None)), c)
    {
      for i := 0 to |created|
        invariant root == old(root) - (set n | n in created[..i] && n !in c.stuck)
        invariant others == old(others)
      {
        assert created[..i + 1] == created[..i] + [created[i]];
        if created[i] !in c.stuck { root := root - {created[i]}; }
      }
      assert created[..|created|] == created;
      LetOthersIn(c.additions);
    }

    method PromoteOne(source: string, t: Turn) returns (failed: Option<PromotionError>)
      requires source in staging && staging[source].File?
      modifies this
      ensures View(failed) == Turned(old(View(None)), source, t)
    {
      hide Interfered, Landed;
      ghost var before := View(None);
      CreatedStay(before, t.additions);
      failed := CopyWithoutOverwrite(source, t);
      if failed.Some? { return; }
      if !t.removes { return Some(Io); }
      staging := staging - {source};
    }

    method PromoteAll(sources: seq<string>, turns: nat -> Turn) returns (failed: Option<PromotionError>)
      requires IsListing(sources, staging) && AllFiles(staging) && created == [] && others == map[]
      modifies this
      ensures View(failed) == Promoted(old(root), old(staging), sources, turns, |sources|)
    {
      hide Turned, IsListing, AllFiles;
      failed := None;
      for i := 0 to |sources|
        invariant failed.None? && View(None) == Promoted(old(root), old(staging), sources, turns, i)
      {
        StillAFile(old(root), old(staging), sources, turns, i);
        failed := PromoteOne(sources[i], turns(i));
        if failed.Some? {
          PromotionStopped(old(root), old(staging), sources, turns, i + 1);
          return;
        }
      }
    }

    /** The rollback guard runs when the promotion returns early, and is disarmed by its success. */
    method PromoteApprovedFiles(key: string -> string, sources: seq<string>, turns: nat -> Turn, c: Cleanup)
        returns (failed: Option<PromotionError>)
      requires IsListing(sources, staging) && created == [] && others == map[]
      modifies this
      ensures View(failed) == Outcome(key, old(root), old(staging), sources, turns, c)
    {
      hide NoCollision, RolledBack, Promoted, IsListing, AllFiles;
      if !AllFiles(staging) { return Some(Io); }
      var clear := PreflightCollisions(key, sources);
      if !clear { return Some(Conflict); }
      failed := PromoteAll(sources, turns);
      if failed.Some? {
        RollBackKeepsFailure(View(failed), c);
        RollBack(c);
      }
    }
  }
}
