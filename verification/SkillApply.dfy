/** Applying an accepted skill proposal: a snapshot write and a proposal transition, made one by a
    compensating revert. Every file operation, the transition and the audit record may fail. */
module SkillApply {
  import opened Options
  import opened Sequences

  datatype Skill = Skill(id: string, content: string)

  datatype Change = ApplyChange | RollbackChange

  /** One approved-skills document. */
  datatype Doc = Doc(
    version: nat,
    appliedFrom: Option<string>,
    change: Change,
    previous: Option<nat>,
    restoredFrom: Option<nat>,
    skills: seq<Skill>)

  /** The head file and the version files beside it. */
  datatype Disk = Disk(head: Option<Doc>, history: map<nat, Doc>)

  datatype WriteFault = WriteOk | OldHistoryFails | HeadFails | NewHistoryFails

  datatype RecoverFault = RecoverOk | RestoreFails | RemoveFails

  /** Where an apply fails. The command without an audit record is the one whose audit never fails. */
  datatype Fault = Fault(write: WriteFault, transitionFails: bool, auditFails: bool, recover: RecoverFault)

  // ----- the snapshot files -----

  function HeadVersion(d: Disk): nat {
    if d.head.Some? then d.head.value.version else 0
  }

  function HeadSkills(d: Disk): seq<Skill> {
    if d.head.Some? then d.head.value.skills else []
  }

  function NextDoc(d: Disk, skills: seq<Skill>, from: Option<string>, change: Change, restored: Option<nat>): Doc {
    Doc(HeadVersion(d) + 1, from, change, if d.head.Some? then Some(d.head.value.version) else None, restored, skills)
  }

  function HistoryIfMissing(history: map<nat, Doc>, doc: Doc): map<nat, Doc> {
    if doc.version in history then history else history[doc.version := doc]
  }

  /** The disk after a write and whether the write returned; a fault leaves what was done so far. */
  function Written(d: Disk, doc: Doc, fault: WriteFault): (Disk, bool) {
    if d.head.Some? && d.head.value.version !in d.history && fault == OldHistoryFails then (d, false)
    else
      var history := if d.head.Some? then HistoryIfMissing(d.history, d.head.value) else d.history;
      if fault == HeadFails then (Disk(d.head, history), false)
      else if doc.version !in history && fault == NewHistoryFails then (Disk(Some(doc), history), false)
      else (Disk(Some(doc), HistoryIfMissing(history, doc)), true)
  }

  function Recovered(d: Disk, previous: Option<Doc>, failed: nat, fault: RecoverFault): (Disk, bool) {
    if fault == RestoreFails then (d, false)
    else if fault == RemoveFails then (Disk(previous, d.history), false)
    else (Disk(previous, d.history - {failed}), true)
  }

  /** Revert reads the previous version from its file and puts it back as the head. */
  function Reverted(d: Disk, applied: Doc, fault: RecoverFault): (Disk, bool) {
    if applied.previous.None? then Recovered(d, None, applied.version, fault)
    else if applied.previous.value !in d.history then (d, false)
    else Recovered(d, Some(d.history[applied.previous.value]), applied.version, fault)
  }

  function RollbackTarget(d: Disk, version: Option<nat>): Option<Doc> {
    if d.head.None? then None
    else
      var target := if version.Some? then version else d.head.value.previous;
      if target.None? || target.value !in d.history then None else Some(d.history[target.value])
  }

  function RolledBack(d: Disk, version: Option<nat>, fault: WriteFault): (Disk, bool) {
    var target := RollbackTarget(d, version);
    if target.None? then (d, false)
    else Written(d, NextDoc(d, target.value.skills, None, RollbackChange, Some(target.value.version)), fault)
  }

  class SkillFiles {
    var head: Option<Doc>
    var history: map<nat, Doc>

    constructor ()
      ensures State() == Disk(None, map[])
    {
      head, history := None, map[];
    }

    function State(): Disk
      reads this
    {
      Disk(head, history)
    }

    method WriteApproved(
      skills: seq<Skill>, from: Option<string>, change: Change, restored: Option<nat>, fault: WriteFault)
      returns (doc: Doc, ok: bool)
      modifies this
      ensures doc == NextDoc(old(State()), skills, from, change, restored)
      ensures (State(), ok) == Written(old(State()), doc, fault)
    {
      doc := NextDoc(State(), skills, from, change, restored);
      if head.Some? && head.value.version !in history {
        if fault == OldHistoryFails {
          return doc, false;
        }
        history := history[head.value.version := head.value];
      }
      if fault == HeadFails {
        return doc, false;
      }
      head := Some(doc);
      if doc.version !in history {
        if fault == NewHistoryFails {
          return doc, false;
        }
        history := history[doc.version := doc];
      }
      return doc, true;
    }

    method RecoverHead(previous: Option<Doc>, failed: nat, fault: RecoverFault) returns (ok: bool)
      modifies this
      ensures (State(), ok) == Recovered(old(State()), previous, failed, fault)
    {
      if fault == RestoreFails {
        return false;
      }
      head := previous;
      if fault == RemoveFails {
        return false;
      }
      history := history - {failed};
      return true;
    }

    method RevertApplied(applied: Doc, fault: RecoverFault) returns (ok: bool)
      modifies this
      ensures (State(), ok) == Reverted(old(State()), applied, fault)
    {
      if applied.previous.Some? && applied.previous.value !in history {
        return false;
      }
      var previous := if applied.previous.None? then None else Some(history[applied.previous.value]);
      ok := RecoverHead(previous, applied.version, fault);
    }
  }

  // ----- proposals -----

  datatype Status = Pending | Accepted | Rejected | Applied | Expired

  /** A proposal and the skill it decodes to; a malformed or invalid one has none. */
  datatype Proposal = Proposal(status: Status, skill: Option<Skill>)

  predicate CanTransition(from: Status, to: Status) {
    || from == to
    || (from == Pending && (to == Accepted || to == Rejected || to == Expired))
    || (from == Accepted && (to == Applied || to == Expired))
  }

  function StatusOf(proposals: map<string, Proposal>, id: string): Option<Status> {
    if id in proposals then Some(proposals[id].status) else None
  }

  function WithStatus(proposals: map<string, Proposal>, id: string, status: Status): map<string, Proposal> {
    if id in proposals && CanTransition(proposals[id].status, status)
    then proposals[id := proposals[id].(status := status)] else proposals
  }

  class TaskPlane {
    var proposals: map<string, Proposal>

    constructor ()
      ensures proposals == map[]
    {
      proposals := map[];
    }

    method Transition(id: string, status: Status, fails: bool) returns (ok: bool)
      modifies this
      ensures ok <==> id in old(proposals) && CanTransition(old(proposals)[id].status, status) && !fails
      ensures proposals == if ok then WithStatus(old(proposals), id, status) else old(proposals)
    {
      if id !in proposals || !CanTransition(proposals[id].status, status) || fails {
        return false;
      }
      proposals := proposals[id := proposals[id].(status := status)];
      return true;
    }
  }

  // ----- apply -----

  datatype Outcome = Refused | WriteFailed | Restored | RecoveryFailed | Done(doc: Doc)

  datatype World = World(disk: Disk, proposals: map<string, Proposal>)

  /** `new Map(approved).set(skill.id, skill)`: a known skill keeps its place. */
  function WithSkill(skills: seq<Skill>, skill: Skill): seq<Skill> {
    if skills == [] then [skill]
    else if skills[0].id == skill.id then [skill] + skills[1..]
    else [skills[0]] + WithSkill(skills[1..], skill)
  }

  /** `new Map(skills.map((skill) => [skill.id, skill]))`: the last skill of an id counts, at its first place. */
  function Keyed(skills: seq<Skill>): seq<Skill> {
    if skills == [] then [] else WithSkill(Keyed(skills[..|skills| - 1]), skills[|skills| - 1])
  }

  predicate Applicable(w: World, id: string) {
    id in w.proposals && w.proposals[id].status == Accepted && w.proposals[id].skill.Some?
  }

  function ApplyDoc(w: World, id: string): Doc
    requires Applicable(w, id)
  {
    NextDoc(
      w.disk, WithSkill(Keyed(HeadSkills(w.disk)), w.proposals[id].skill.value), Some(id), ApplyChange, None)
  }

  function AfterApply(w: World, id: string, fault: Fault): (World, Outcome) {
    if !Applicable(w, id) then (w, Refused)
    else
      var doc := ApplyDoc(w, id);
      var (disk, ok) := Written(w.disk, doc, fault.write);
      if !ok then (w.(disk := disk), WriteFailed)
      else
        var proposals := if fault.transitionFails then w.proposals else WithStatus(w.proposals, id, Applied);
        if !fault.transitionFails && !fault.auditFails then (World(disk, proposals), Done(doc))
        else
          var (restored, recovered) := Reverted(disk, doc, fault.recover);
          (World(restored, proposals), if recovered then Restored else RecoveryFailed)
  }

  method ApplyProposal(files: SkillFiles, plane: TaskPlane, id: string, fault: Fault) returns (outcome: Outcome)
    modifies files, plane
    ensures (World(files.State(), plane.proposals), outcome)
            == AfterApply(World(old(files.State()), old(plane.proposals)), id, fault)
  {
    if id !in plane.proposals || plane.proposals[id].status != Accepted || plane.proposals[id].skill.None? {
      return Refused;
    }
    var approved := if files.head.Some? then files.head.value.skills else [];
    var doc, ok := files.WriteApproved(
      WithSkill(Keyed(approved), plane.proposals[id].skill.value), Some(id), ApplyChange, None, fault.write);
    if !ok {
      return WriteFailed;
    }
    ok := plane.Transition(id, Applied, fault.transitionFails);
    if ok && !fault.auditFails {
      return Done(doc);
    }
    ok := files.RevertApplied(doc, fault.recover);
    return if ok then Restored else RecoveryFailed;
  }

  // ----- what the disk holds -----

  /** Version files agree with the head, and no version lies ahead of it. */
  ghost predicate ValidDisk(d: Disk) {
    match d.head
    case None => d.history == map[]
    case Some(h) =>
      && h.version >= 1
      && (forall v :: v in d.history ==> 1 <= v <= h.version && d.history[v].version == v)
      && (h.version in d.history ==> d.history[h.version] == h)
  }

  /** Version files carry their own version. Unlike `ValidDisk` this survives every fault. */
  ghost predicate NamedHistory(d: Disk) {
    forall v :: v in d.history ==> d.history[v].version == v
  }

  /** The file of the head's version, if there is one, holds the head. */
  predicate HeadFileMatches(d: Disk) {
    HeadVersion(d) in d.history && d.head.Some? ==> d.history[HeadVersion(d)] == d.head.value
  }

  /** A file of the next version is there already, left behind by a revert. */
  predicate NextTaken(d: Disk) {
    HeadVersion(d) + 1 in d.history
  }

  lemma ValidDiskIsClean(d: Disk)
    requires ValidDisk(d)
    ensures NamedHistory(d) && HeadFileMatches(d) && !NextTaken(d)
  {
  }

  /** All versions that can be read back, counting the head as its own version. */
  function Versions(d: Disk): map<nat, Doc> {
    if d.head.Some? then d.history[d.head.value.version := d.head.value] else d.history
  }

  ghost predicate SameContents(a: Disk, b: Disk) {
    a.head == b.head && Versions(a) == Versions(b)
  }

  /** A document made to follow the head. */
  predicate Follows(d: Disk, doc: Doc) {
    && doc.version == HeadVersion(d) + 1
    && doc.previous == if d.head.Some? then Some(d.head.value.version) else None
  }

  /** The history with the old head archived. */
  function Archived(d: Disk): map<nat, Doc> {
    if d.head.Some? then HistoryIfMissing(d.history, d.head.value) else d.history
  }

  /** The disk after a completed write, and after its revert. */
  lemma WriteAndRevert(d: Disk, doc: Doc, fault: RecoverFault)
    requires NamedHistory(d) && Follows(d, doc)
    ensures var written := Disk(Some(doc), HistoryIfMissing(Archived(d), doc));
            var oldHead := if d.head.Some? then Some(Archived(d)[HeadVersion(d)]) else None;
            && Written(d, doc, WriteOk) == (written, true)
            && Reverted(written, doc, fault)
               == (match fault
                   case RestoreFails => (written, false)
                   case RemoveFails => (Disk(oldHead, written.history), false)
                   case RecoverOk => (Disk(oldHead, written.history - {doc.version}), true))
  {
  }

  lemma ArchivedVersions(d: Disk)
    ensures d.head.Some? ==> (Archived(d)[HeadVersion(d)] == d.head.value <==> HeadFileMatches(d))
    ensures HeadFileMatches(d) ==> Archived(d) == Versions(d)
    ensures forall v :: v in Archived(d) <==> v in d.history || (d.head.Some? && v == HeadVersion(d))
    ensures forall v :: v in d.history ==> Archived(d)[v] == d.history[v]
  {
  }

  /** Reverting a completed write gives back the head and every version that could be read before, exactly
      when the file of the head's version holds the head and no file had the new version already. */
  lemma RevertUndoesWrite(d: Disk, doc: Doc)
    requires NamedHistory(d) && Follows(d, doc)
    ensures var (written, ok) := Written(d, doc, WriteOk);
            var (restored, recovered) := Reverted(written, doc, RecoverOk);
            && ok && recovered
            && (SameContents(restored, d) <==> HeadFileMatches(d) && !NextTaken(d))
            && (ValidDisk(d) ==> ValidDisk(restored))
  {
    WriteAndRevert(d, doc, RecoverOk);
    ArchivedVersions(d);
    var restored := Reverted(Written(d, doc, WriteOk).0, doc, RecoverOk).0;
    if NextTaken(d) {
      assert doc.version in Versions(d);
      assert doc.version !in Versions(restored);
    } else if HeadFileMatches(d) {
      assert restored.history == Archived(d);
    }
  }

  lemma WriteStaysValid(d: Disk, doc: Doc, fault: WriteFault)
    requires ValidDisk(d) && doc.version == HeadVersion(d) + 1
    ensures ValidDisk(Written(d, doc, fault).0)
    ensures fault != NewHistoryFails && !Written(d, doc, fault).1 ==> SameContents(Written(d, doc, fault).0, d)
    ensures fault == WriteOk ==> Written(d, doc, fault).1
    ensures Written(d, doc, fault).1 || fault == NewHistoryFails ==> Written(d, doc, fault).0.head == Some(doc)
  {
    if d.head.Some? {
      assert HistoryIfMissing(d.history, d.head.value) == Versions(d);
    }
  }

  // ----- atomicity -----

  /** Both effects or neither: the proposal is applied and the snapshot advanced to it, or the proposal
      is as before and the snapshots read as before. */
  ghost predicate BothOrNeither(w: World, w': World, id: string)
    requires Applicable(w, id)
  {
    || (w'.disk.head == Some(ApplyDoc(w, id)) && w'.proposals == WithStatus(w.proposals, id, Applied))
    || (SameContents(w'.disk, w.disk) && w'.proposals == w.proposals)
  }

  /** The write of the old head's history file fails; it is attempted only when that file is missing. */
  predicate OldHistoryLost(d: Disk, fault: WriteFault) {
    fault == OldHistoryFails && d.head.Some? && HeadVersion(d) !in d.history
  }

  /** The write of the new version's history file fails; it is attempted only when there is none. */
  predicate NewHistoryLost(d: Disk, fault: WriteFault) {
    fault == NewHistoryFails && !NextTaken(d)
  }

  /** The write stops before the head is replaced. */
  predicate StopsEarly(d: Disk, fault: WriteFault) {
    fault == HeadFails || OldHistoryLost(d, fault)
  }

  /** The faults and disks that compensation covers. A failing transition needs a recovery that restores the
      head, a file of the head's version that holds it, and a version file that is removed exactly if it was
      not there before; a failing audit needs a recovery that does nothing. */
  predicate Compensated(d: Disk, fault: Fault) {
    || StopsEarly(d, fault.write)
    || (&& !NewHistoryLost(d, fault.write)
        && if fault.transitionFails
           then fault.recover != RestoreFails && HeadFileMatches(d) && (NextTaken(d) <==> fault.recover == RemoveFails)
           else fault.auditFails ==> fault.recover == RestoreFails)
  }

  lemma WrittenCases(d: Disk, doc: Doc, fault: WriteFault)
    requires Follows(d, doc)
    ensures OldHistoryLost(d, fault) ==> Written(d, doc, fault) == (d, false)
    ensures fault == HeadFails && !OldHistoryLost(d, fault) ==>
              Written(d, doc, fault) == (Disk(d.head, Archived(d)), false)
    ensures !StopsEarly(d, fault) && NewHistoryLost(d, fault) ==> doc.version !in Archived(d)
                                                                  && Written(d, doc, fault) == (Disk(Some(doc), Archived(d)), false)
    ensures !StopsEarly(d, fault) && !NewHistoryLost(d, fault) ==> Written(d, doc, fault) == Written(d, doc, WriteOk)
  {
  }

  lemma ArchivingKeepsContents(d: Disk)
    ensures SameContents(Disk(d.head, Archived(d)), d)
  {
  }

  lemma RevertedContentsIff(d: Disk, doc: Doc, fault: RecoverFault)
    requires NamedHistory(d) && Follows(d, doc)
    ensures var reverted := Reverted(Written(d, doc, WriteOk).0, doc, fault).0;
            && (SameContents(reverted, d)
                <==> fault != RestoreFails && HeadFileMatches(d) && (NextTaken(d) <==> fault == RemoveFails))
            && (reverted.head == Some(doc) <==> fault == RestoreFails)
  {
    WriteAndRevert(d, doc, fault);
    ArchivedVersions(d);
    var reverted := Reverted(Written(d, doc, WriteOk).0, doc, fault).0;
    if fault == RecoverOk {
      RevertUndoesWrite(d, doc);
    } else if fault == RemoveFails {
      assert doc.version in Versions(reverted);
      if NextTaken(d) {
        assert reverted.history == Archived(d);
      }
    }
  }

  /** For every disk that faults can lead to: an apply is atomic exactly when it is compensated. */
  lemma ApplyAtomicIff(w: World, id: string, fault: Fault)
    requires Applicable(w, id) && NamedHistory(w.disk)
    ensures BothOrNeither(w, AfterApply(w, id, fault).0, id) <==> Compensated(w.disk, fault)
  {
    var d, doc := w.disk, ApplyDoc(w, id);
    WrittenCases(d, doc, fault.write);
    ArchivingKeepsContents(d);
    WriteAndRevert(d, doc, fault.recover);
    RevertedContentsIff(d, doc, fault.recover);
    assert d.head != Some(doc);
    assert WithStatus(w.proposals, id, Applied) != w.proposals by {
      assert WithStatus(w.proposals, id, Applied)[id].status == Applied;
    }
    hide NamedHistory, SameContents, Written, Reverted, ApplyDoc, WithStatus, Archived, HeadFileMatches, NextTaken,
      OldHistoryLost, NewHistoryLost;
  }

  /** The faults that no disk lets compensation cover, or only one with files left behind: the new version's
      history file cannot be written after the head was; the transition fails and then the recovery too; or
      the audit record fails after the transition, and the recovery takes the snapshot back from an applied
      proposal. */
  predicate Uncovered(fault: Fault) {
    || fault.write == NewHistoryFails
    || (fault.write != HeadFails && fault.transitionFails && fault.recover != RecoverOk)
    || (fault.write != HeadFails && !fault.transitionFails && fault.auditFails && fault.recover != RestoreFails)
  }

  /** On a valid disk the fault alone decides, but for a write that stops early. */
  lemma ValidDiskCompensated(d: Disk, fault: Fault)
    requires ValidDisk(d)
    ensures Compensated(d, fault) <==> OldHistoryLost(d, fault.write) || !Uncovered(fault)
  {
    ValidDiskIsClean(d);
    hide ValidDisk, HeadFileMatches, NextTaken, NamedHistory;
  }

  // ----- runs -----

  datatype Op =
    | Enqueue(id: string, skill: Option<Skill>)
    | Decision(id: string, status: Status)
    | Apply(id: string, fault: Fault)
    | Rollback(version: Option<nat>, writeFault: WriteFault)

  function Step(w: World, op: Op): World {
    match op
    case Enqueue(id, skill) =>
      if id in w.proposals then w else w.(proposals := w.proposals[id := Proposal(Pending, skill)])
    case Decision(id, status) => w.(proposals := WithStatus(w.proposals, id, status))
    case Apply(id, fault) => AfterApply(w, id, fault).0
    case Rollback(version, fault) => w.(disk := RolledBack(w.disk, version, fault).0)
  }

  function Run(w: World, ops: seq<Op>): World
    decreases |ops|
  {
    if ops == [] then w else Run(Step(w, ops[0]), ops[1..])
  }

  // ----- at most once -----

  /** The operation leaves behind a new head that was written for the proposal. */
  predicate Commits(w: World, op: Op, id: string) {
    var head := Step(w, op).disk.head;
    op.Apply? && head != w.disk.head && head.Some? && head.value.appliedFrom == Some(id)
    && head.value.version == HeadVersion(w.disk) + 1
  }

  function CountCommits(w: World, ops: seq<Op>, id: string): nat
    decreases |ops|
  {
    if ops == [] then 0
    else (if Commits(w, ops[0], id) then 1 else 0) + CountCommits(Step(w, ops[0]), ops[1..], id)
  }

  /** The apply fails, yet the new head stays: the version's history file was lost after the head was
      written, or the transition failed and then the restoring of the old head. */
  predicate LeavesHead(w: World, id: string, fault: Fault) {
    && Applicable(w, id) && !StopsEarly(w.disk, fault.write)
    && (NewHistoryLost(w.disk, fault.write) || (fault.transitionFails && fault.recover == RestoreFails))
  }

  predicate LeftBy(w: World, op: Op, id: string) {
    op.Apply? && op.id == id && LeavesHead(w, id, op.fault)
  }

  function CountLeft(w: World, ops: seq<Op>, id: string): nat
    decreases |ops|
  {
    if ops == [] then 0
    else (if LeftBy(w, ops[0], id) then 1 else 0) + CountLeft(Step(w, ops[0]), ops[1..], id)
  }

  lemma WriteKeepsNames(d: Disk, doc: Doc, fault: WriteFault)
    requires NamedHistory(d)
    ensures NamedHistory(Written(d, doc, fault).0)
    ensures Written(d, doc, fault).1 && d.head.Some? ==> HeadVersion(d) in Written(d, doc, fault).0.history
    ensures Written(d, doc, fault).1 ==> Written(d, doc, fault).0.head == Some(doc)
  {
  }

  lemma StepKeepsNames(w: World, op: Op)
    requires NamedHistory(w.disk)
    ensures NamedHistory(Step(w, op).disk)
  {
    match op
    case Apply(id, fault) =>
      if Applicable(w, id) {
        WriteKeepsNames(w.disk, ApplyDoc(w, id), fault.write);
      }
    case Rollback(version, fault) =>
      var target := RollbackTarget(w.disk, version);
      if target.Some? {
        WriteKeepsNames(
          w.disk, NextDoc(w.disk, target.value.skills, None, RollbackChange, Some(target.value.version)), fault);
      }
    case _ =>
  }

  /** Under every fault: a commit happens from accepted only. It ends in applied, which is final, or the
      apply left its head behind and the proposal is still accepted. */
  lemma CommitCases(w: World, op: Op, id: string)
    requires NamedHistory(w.disk)
    ensures LeftBy(w, op, id) ==>
              Commits(w, op, id) && StatusOf(Step(w, op).proposals, id) == Some(Accepted)
    ensures Commits(w, op, id) && !LeftBy(w, op, id) ==>
              StatusOf(w.proposals, id) == Some(Accepted) && StatusOf(Step(w, op).proposals, id) == Some(Applied)
    ensures StatusOf(w.proposals, id) == Some(Applied) ==> StatusOf(Step(w, op).proposals, id) == Some(Applied)
  {
    if op.Apply? && Applicable(w, op.id) {
      WriteKeepsNames(w.disk, ApplyDoc(w, op.id), op.fault.write);
    }
  }

  /** Over every run, under any faults: the commits of a proposal are the applies that left their head
      behind, and at most one more. */
  lemma {:induction false} CommitsCounted(w: World, ops: seq<Op>, id: string)
    requires NamedHistory(w.disk)
    ensures CountLeft(w, ops, id) <= CountCommits(w, ops, id)
    ensures CountCommits(w, ops, id)
            <= CountLeft(w, ops, id) + if StatusOf(w.proposals, id) == Some(Applied) then 0 else 1
    decreases |ops|
  {
    if ops != [] {
      StepKeepsNames(w, ops[0]);
      CommitCases(w, ops[0], id);
      CommitsCounted(Step(w, ops[0]), ops[1..], id);
    }
  }

  /** The faults that can leave a head behind, whatever the state. */
  predicate MayLeaveHead(fault: Fault) {
    || fault.write == NewHistoryFails
    || (fault.write != HeadFails && fault.transitionFails && fault.recover == RestoreFails)
  }

  lemma {:induction false} NothingLeft(w: World, ops: seq<Op>, id: string)
    requires forall op :: op in ops && op.Apply? && op.id == id ==> !MayLeaveHead(op.fault)
    ensures CountLeft(w, ops, id) == 0
    decreases |ops|
  {
    if ops != [] {
      assert ops[0] in ops;
      NothingLeft(Step(w, ops[0]), ops[1..], id);
    }
  }

  /** A proposal's snapshot write commits at most once on every run whose faults leave no head behind,
      and not at all once the proposal is applied. Failing audits and failing removals are allowed. */
  lemma CommitsAtMostOnce(w: World, ops: seq<Op>, id: string)
    requires NamedHistory(w.disk)
    requires forall op :: op in ops && op.Apply? && op.id == id ==> !MayLeaveHead(op.fault)
    ensures CountCommits(w, ops, id) <= if StatusOf(w.proposals, id) == Some(Applied) then 0 else 1
  {
    NothingLeft(w, ops, id);
    CommitsCounted(w, ops, id);
  }

  const NO_FAULT := Fault(WriteOk, false, false, RecoverOk)

  lemma CountTwo(w: World, first: Op, second: Op, id: string)
    ensures CountCommits(w, [first, second], id)
            == (if Commits(w, first, id) then 1 else 0) + (if Commits(Step(w, first), second, id) then 1 else 0)
  {
    hide Commits, Step;
    assert [first, second][1..] == [second] && [second][1..] == [];
    assert CountCommits(Step(w, first), [second], id)
        == (if Commits(Step(w, first), second, id) then 1 else 0) + CountCommits(Step(Step(w, first), second), [], id);
  }

  lemma CleanApplyCommits(w: World, id: string)
    requires Applicable(w, id)
    ensures Commits(w, Apply(id, NO_FAULT), id)
  {
  }

  /** At-most-once is broken by exactly these faults: an apply with the fault and then one without commit
      the same proposal twice if and only if the first left its head behind. */
  lemma RetryCommitsTwiceIff(w: World, id: string, fault: Fault)
    requires NamedHistory(w.disk) && Applicable(w, id)
    ensures CountCommits(w, [Apply(id, fault), Apply(id, NO_FAULT)], id) == 2 <==> LeavesHead(w, id, fault)
  {
    var first, second := Apply(id, fault), Apply(id, NO_FAULT);
    CountTwo(w, first, second, id);
    StepKeepsNames(w, first);
    CommitCases(w, first, id);
    CommitCases(Step(w, first), second, id);
    if LeavesHead(w, id, fault) {
      SkillStays(w, first, id);
      CleanApplyCommits(Step(w, first), id);
    }
  }

  lemma SkillStays(w: World, op: Op, id: string)
    requires id in w.proposals
    ensures id in Step(w, op).proposals && Step(w, op).proposals[id].skill == w.proposals[id].skill
  {
  }

  // ----- what stays readable -----

  /** Every version readable before is readable with the same content, from its file if it was. */
  ghost predicate Extends(after: Disk, before: Disk) {
    && (forall v :: v in Versions(before) ==> v in Versions(after) && Versions(after)[v] == Versions(before)[v])
    && (forall v :: v in before.history ==> v in after.history && after.history[v] == before.history[v])
  }

  /** The apply gives the head back: the transition or the audit fails after the write, and the old head
      can be restored. */
  predicate TakesBack(d: Disk, fault: Fault) {
    && !NewHistoryLost(d, fault.write)
    && (fault.transitionFails || fault.auditFails) && fault.recover != RestoreFails
  }

  /** A new head loses nothing when the old one is archived faithfully and its own number is free. */
  predicate NewHeadIsSafe(d: Disk, doc: Doc) {
    HeadFileMatches(d) && (NextTaken(d) ==> d.history[HeadVersion(d) + 1] == doc)
  }

  /** What an operation must find on the disk to lose nothing. */
  predicate LosesNothing(w: World, op: Op) {
    match op
    case Apply(id, fault) =>
      Applicable(w, id) && !StopsEarly(w.disk, fault.write) ==>
        if TakesBack(w.disk, fault)
        then HeadFileMatches(w.disk) && !(NextTaken(w.disk) && fault.recover == RecoverOk)
        else NewHeadIsSafe(w.disk, ApplyDoc(w, id))
    case Rollback(version, fault) =>
      var target := RollbackTarget(w.disk, version);
      target.Some? && !StopsEarly(w.disk, fault) ==>
        NewHeadIsSafe(
          w.disk, NextDoc(w.disk, target.value.skills, None, RollbackChange, Some(target.value.version)))
    case _ => true
  }

  lemma NewHeadExtendsIff(d: Disk, doc: Doc)
    requires Follows(d, doc)
    ensures Extends(Disk(Some(doc), HistoryIfMissing(Archived(d), doc)), d) <==> NewHeadIsSafe(d, doc)
    ensures !NextTaken(d) ==> (Extends(Disk(Some(doc), Archived(d)), d) <==> NewHeadIsSafe(d, doc))
  {
    ArchivedVersions(d);
    hide Archived;
    var kept, bare := Disk(Some(doc), HistoryIfMissing(Archived(d), doc)), Disk(Some(doc), Archived(d));
    if d.head.Some? {
      assert HeadVersion(d) in Versions(d) && Versions(d)[HeadVersion(d)] == d.head.value;
    }
    if NextTaken(d) {
      assert HeadVersion(d) + 1 in Versions(d);
    }
  }

  lemma TakenBackExtendsIff(d: Disk, doc: Doc, fault: RecoverFault)
    requires NamedHistory(d) && Follows(d, doc) && fault != RestoreFails
    ensures Extends(Reverted(Written(d, doc, WriteOk).0, doc, fault).0, d)
            <==> HeadFileMatches(d) && !(NextTaken(d) && fault == RecoverOk)
  {
    WriteAndRevert(d, doc, fault);
    ArchivedVersions(d);
    hide Archived, Written, Reverted;
    if d.head.Some? {
      assert HeadVersion(d) in Versions(d) && Versions(d)[HeadVersion(d)] == d.head.value;
    }
  }

  lemma WrittenExtendsIff(d: Disk, doc: Doc, fault: WriteFault)
    requires NamedHistory(d) && Follows(d, doc)
    ensures Extends(Written(d, doc, fault).0, d) <==> StopsEarly(d, fault) || NewHeadIsSafe(d, doc)
  {
    WrittenCases(d, doc, fault);
    WriteAndRevert(d, doc, RestoreFails);
    NewHeadExtendsIff(d, doc);
    ArchivedVersions(d);
    hide Written, Reverted, NewHeadIsSafe, OldHistoryLost, NewHistoryLost;
  }

  /** For every disk that faults can lead to: the exact condition for an operation to lose no version. */
  lemma StepKeepsVersionsIff(w: World, op: Op)
    requires NamedHistory(w.disk)
    ensures Extends(Step(w, op).disk, w.disk) <==> LosesNothing(w, op)
  {
    match op
    case Apply(id, fault) =>
      if Applicable(w, id) {
        var doc := ApplyDoc(w, id);
        WrittenExtendsIff(w.disk, doc, fault.write);
        WrittenCases(w.disk, doc, fault.write);
        WriteAndRevert(w.disk, doc, fault.recover);
        if fault.recover != RestoreFails {
          TakenBackExtendsIff(w.disk, doc, fault.recover);
        }
        hide Extends, Written, Reverted, HeadFileMatches, NewHeadIsSafe, NamedHistory, NextTaken, Archived;
      }
    case Rollback(version, fault) =>
      var target := RollbackTarget(w.disk, version);
      if target.Some? {
        WrittenExtendsIff(
          w.disk, NextDoc(w.disk, target.value.skills, None, RollbackChange, Some(target.value.version)), fault);
      }
    case _ =>
  }

  /** The removal of a reverted version fails: its file stays behind, ahead of the head. */
  predicate LeavesVersion(w: World, op: Op) {
    && op.Apply? && Applicable(w, op.id)
    && !StopsEarly(w.disk, op.fault.write) && TakesBack(w.disk, op.fault) && op.fault.recover == RemoveFails
  }

  lemma TakenBackValidIff(d: Disk, doc: Doc, fault: RecoverFault)
    requires ValidDisk(d) && Follows(d, doc)
    ensures ValidDisk(Reverted(Written(d, doc, WriteOk).0, doc, fault).0) <==> fault != RemoveFails
  {
    WriteStaysValid(d, doc, WriteOk);
    ValidDiskIsClean(d);
    WriteAndRevert(d, doc, fault);
    ArchivedVersions(d);
    var reverted := Reverted(Written(d, doc, WriteOk).0, doc, fault).0;
    if fault == RemoveFails {
      assert doc.version in reverted.history;
    }
  }

  /** A valid disk loses nothing, and stays valid exactly when no reverted version is left behind. */
  lemma StepKeepsVersions(w: World, op: Op)
    requires ValidDisk(w.disk)
    ensures Extends(Step(w, op).disk, w.disk)
    ensures ValidDisk(Step(w, op).disk) <==> !LeavesVersion(w, op)
  {
    ValidDiskIsClean(w.disk);
    StepKeepsVersionsIff(w, op);
    match op
    case Apply(id, fault) =>
      if Applicable(w, id) {
        var doc := ApplyDoc(w, id);
        WriteStaysValid(w.disk, doc, fault.write);
        WrittenCases(w.disk, doc, fault.write);
        WriteAndRevert(w.disk, doc, fault.recover);
        TakenBackValidIff(w.disk, doc, fault.recover);
      }
    case Rollback(version, fault) =>
      var target := RollbackTarget(w.disk, version);
      if target.Some? {
        WriteStaysValid(
          w.disk, NextDoc(w.disk, target.value.skills, None, RollbackChange, Some(target.value.version)), fault);
      }
    case _ =>
  }

  ghost predicate NoVersionLeft(w: World, ops: seq<Op>)
    decreases |ops|
  {
    ops != [] ==> !LeavesVersion(w, ops[0]) && NoVersionLeft(Step(w, ops[0]), ops[1..])
  }

  lemma ExtendsTransitive(a: Disk, b: Disk, c: Disk)
    requires Extends(a, b) && Extends(b, c)
    ensures Extends(a, c)
  {
  }

  /** Over every run that leaves no reverted version behind, what was readable stays readable with the
      same content, and the disk stays valid. */
  lemma {:induction false} VersionsNeverChange(w: World, ops: seq<Op>)
    requires ValidDisk(w.disk) && NoVersionLeft(w, ops)
    ensures ValidDisk(Run(w, ops).disk) && Extends(Run(w, ops).disk, w.disk)
    decreases |ops|
  {
    if ops != [] {
      StepKeepsVersions(w, ops[0]);
      hide Extends, ValidDisk, Step, LeavesVersion;
      VersionsNeverChange(Step(w, ops[0]), ops[1..]);
      ExtendsTransitive(Run(w, ops).disk, Step(w, ops[0]).disk, w.disk);
    }
  }

  // ----- rollback -----

  /** The head never goes back, and the files up to it stay as they are. */
  ghost predicate KeepsFiles(after: Disk, before: Disk) {
    && HeadVersion(after) >= HeadVersion(before) && (before.head.Some? ==> after.head.Some?)
    && (forall v :: v in before.history && v <= HeadVersion(before) ==>
          v in after.history && after.history[v] == before.history[v])
  }

  lemma WrittenKeepsFiles(d: Disk, doc: Doc, fault: WriteFault)
    requires Follows(d, doc)
    ensures KeepsFiles(Written(d, doc, fault).0, d)
  {
  }

  lemma TakenBackKeepsFiles(d: Disk, doc: Doc, fault: RecoverFault)
    requires NamedHistory(d) && Follows(d, doc)
    ensures KeepsFiles(Reverted(Written(d, doc, WriteOk).0, doc, fault).0, d)
  {
    WriteAndRevert(d, doc, fault);
    ArchivedVersions(d);
  }

  lemma StepKeepsFiles(w: World, op: Op)
    requires NamedHistory(w.disk)
    ensures KeepsFiles(Step(w, op).disk, w.disk)
  {
    match op
    case Apply(id, fault) =>
      if Applicable(w, id) {
        var doc := ApplyDoc(w, id);
        WrittenKeepsFiles(w.disk, doc, fault.write);
        WrittenCases(w.disk, doc, fault.write);
        WriteAndRevert(w.disk, doc, fault.recover);
        TakenBackKeepsFiles(w.disk, doc, fault.recover);
      }
    case Rollback(version, fault) =>
      var target := RollbackTarget(w.disk, version);
      if target.Some? {
        WrittenKeepsFiles(
          w.disk, NextDoc(w.disk, target.value.skills, None, RollbackChange, Some(target.value.version)), fault);
      }
    case _ =>
  }

  lemma {:induction false} RunKeepsFiles(w: World, ops: seq<Op>)
    requires NamedHistory(w.disk)
    ensures NamedHistory(Run(w, ops).disk) && KeepsFiles(Run(w, ops).disk, w.disk)
    decreases |ops|
  {
    if ops != [] {
      StepKeepsNames(w, ops[0]);
      StepKeepsFiles(w, ops[0]);
      hide Step, NamedHistory;
      RunKeepsFiles(Step(w, ops[0]), ops[1..]);
    }
  }

  /** A rollback to any version, on every disk that faults can lead to: it succeeds exactly when there is a
      head and a file of that version, and then the skills of the file are the head, under a new version. */
  lemma RollbackToAny(d: Disk, v: nat)
    requires NamedHistory(d)
    ensures var (back, ok) := RolledBack(d, Some(v), WriteOk);
            && (ok <==> d.head.Some? && v in d.history)
            && (!ok ==> back == d)
            && (ok ==> back.head.Some? && back.head.value.skills == d.history[v].skills
                       && back.head.value.version == HeadVersion(d) + 1
                       && back.head.value.restoredFrom == Some(v)
                       && back.head.value.change == RollbackChange && back.head.value.appliedFrom == None
                       && back.head.value.previous == Some(HeadVersion(d)))
  {
  }

  /** Whatever happened since, under any faults: rolling back to a version that once had a file, not ahead
      of the head, gives its skills back. */
  lemma RollbackOverRuns(w: World, ops: seq<Op>, v: nat)
    requires NamedHistory(w.disk) && w.disk.head.Some? && v in w.disk.history && v <= HeadVersion(w.disk)
    ensures var (back, ok) := RolledBack(Run(w, ops).disk, Some(v), WriteOk);
            && ok && back.head.Some?
            && back.head.value.skills == w.disk.history[v].skills
            && back.head.value.version == HeadVersion(Run(w, ops).disk) + 1
  {
    RunKeepsFiles(w, ops);
    RollbackToAny(Run(w, ops).disk, v);
  }

  /** With a version left behind, the next apply gets the same version number and its skills are not what
      a rollback to that number restores. */
  lemma LeftVersionShadowsNext(w: World, a: string, b: string)
    requires ValidDisk(w.disk) && a != b && Applicable(w, a) && Applicable(w, b)
    ensures var n := HeadVersion(w.disk) + 1;
            var d := Run(w, [Apply(a, Fault(WriteOk, true, false, RemoveFails)), Apply(b, NO_FAULT)]).disk;
            && d.head == Some(ApplyDoc(w, b)) && d.head.value.version == n
            && n in d.history && d.history[n] == ApplyDoc(w, a)
            && RolledBack(d, Some(n), WriteOk).1
            && RolledBack(d, Some(n), WriteOk).0.head.value.skills == ApplyDoc(w, a).skills
  {
    var first, second := Apply(a, Fault(WriteOk, true, false, RemoveFails)), Apply(b, NO_FAULT);
    var w1 := Step(w, first);
    assert [first, second][1..] == [second] && [second][1..] == [];
    assert Run(w1, [second]) == Step(w1, second);
    assert w1.disk.head == w.disk.head && w1.proposals == w.proposals;
    assert HeadVersion(w.disk) + 1 in w1.disk.history;
  }

  /** And one more apply that is reverted, with a recovery that reports success, gives the head to the
      proposal whose version was left behind: it is still accepted, and what was applied in between is lost. */
  lemma LeftVersionBreaksApply(w: World, a: string, b: string, c: string)
    requires ValidDisk(w.disk) && a != b && b != c && a != c
    requires Applicable(w, a) && Applicable(w, b) && Applicable(w, c)
    ensures var fault := Fault(WriteOk, true, false, RecoverOk);
            var w2 := Run(w, [Apply(a, Fault(WriteOk, true, false, RemoveFails)), Apply(b, NO_FAULT)]);
            && Applicable(w2, c) && !Uncovered(fault)
            && var (w3, outcome) := AfterApply(w2, c, fault);
               && outcome == Restored
               && w3.disk.head == Some(ApplyDoc(w, a)) && StatusOf(w3.proposals, a) == Some(Accepted)
               && w2.disk.head == Some(ApplyDoc(w, b)) && StatusOf(w3.proposals, b) == Some(Applied)
               && !BothOrNeither(w2, w3, c) && !Extends(w3.disk, w2.disk)
  {
    LeftVersionShadowsNext(w, a, b);
    AfterTwo(w, a, b);
    var fault := Fault(WriteOk, true, false, RecoverOk);
    var w2 := Run(w, [Apply(a, Fault(WriteOk, true, false, RemoveFails)), Apply(b, NO_FAULT)]);
    assert !HeadFileMatches(w2.disk) by { assert ApplyDoc(w, a).appliedFrom != ApplyDoc(w, b).appliedFrom; }
    ApplyAtomicIff(w2, c, fault);
    StepKeepsVersionsIff(w2, Apply(c, fault));
    WriteAndRevert(w2.disk, ApplyDoc(w2, c), RecoverOk);
    hide Run, ApplyDoc, BothOrNeither, Extends, Written, Reverted;
  }

  lemma AfterTwo(w: World, a: string, b: string)
    requires ValidDisk(w.disk) && a != b && Applicable(w, a) && Applicable(w, b)
    ensures var w2 := Run(w, [Apply(a, Fault(WriteOk, true, false, RemoveFails)), Apply(b, NO_FAULT)]);
            NamedHistory(w2.disk) && w2.proposals == WithStatus(w.proposals, b, Applied)
  {
    var first, second := Apply(a, Fault(WriteOk, true, false, RemoveFails)), Apply(b, NO_FAULT);
    assert [first, second][1..] == [second] && [second][1..] == [];
    assert Run(Step(w, first), [second]) == Step(Step(w, first), second);
    StepKeepsNames(w, first);
    StepKeepsNames(Step(w, first), second);
    assert Step(w, first).proposals == w.proposals;
  }

  // ----- what an apply makes of the skills -----

  function SkillIds(skills: seq<Skill>): seq<string> {
    Map(skills, (s: Skill) => s.id)
  }

  /** No later skill has the id: the one that counts. */
  ghost predicate LastOfId(skills: seq<Skill>, i: nat)
    requires i < |skills|
  {
    forall j :: i < j < |skills| ==> skills[j].id != skills[i].id
  }

  /** The skill is in the list and counts there. */
  ghost predicate InForce(skills: seq<Skill>, skill: Skill) {
    exists i: nat :: i < |skills| && skills[i] == skill && LastOfId(skills, i)
  }

  lemma SkillIdsNext(skills: seq<Skill>, skill: Skill)
    ensures SkillIds(skills + [skill]) == SkillIds(skills) + [skill.id]
  {
  }

  /** An upsert keeps the places of known ids and puts a new one last. */
  lemma {:induction false} WithSkillIds(skills: seq<Skill>, skill: Skill)
    ensures SkillIds(WithSkill(skills, skill))
            == if skill.id in SkillIds(skills) then SkillIds(skills) else SkillIds(skills) + [skill.id]
  {
    if skills != [] {
      var head, tail := skills[0], skills[1..];
      assert SkillIds(skills) == [head.id] + SkillIds(tail);
      if head.id == skill.id {
        assert SkillIds([skill] + tail) == [skill.id] + SkillIds(tail);
      } else {
        WithSkillIds(tail, skill);
        assert SkillIds([head] + WithSkill(tail, skill)) == [head.id] + SkillIds(WithSkill(tail, skill));
      }
    }
  }

  lemma DistinctIdsOf(skills: seq<Skill>)
    requires Distinct(SkillIds(skills))
    ensures forall i, j :: 0 <= i < j < |skills| ==> skills[i].id != skills[j].id
  {
    forall i, j | 0 <= i < j < |skills| ensures skills[i].id != skills[j].id {
      assert SkillIds(skills)[i] != SkillIds(skills)[j];
    }
  }

  lemma InForceNext(skills: seq<Skill>, last: Skill, skill: Skill)
    ensures InForce(skills + [last], skill) <==> skill == last || (InForce(skills, skill) && skill.id != last.id)
  {
    var all := skills + [last];
    if InForce(skills, skill) && skill.id != last.id {
      var i: nat :| i < |skills| && skills[i] == skill && LastOfId(skills, i);
      assert all[i] == skill && LastOfId(all, i);
    }
    if skill == last {
      assert all[|skills|] == skill && LastOfId(all, |skills|);
    }
    if InForce(all, skill) && skill != last {
      var i: nat :| i < |all| && all[i] == skill && LastOfId(all, i);
      assert all[|skills|] == last && i < |skills|;
      assert forall j :: i < j < |skills| ==> skills[j] == all[j];
      assert skills[i] == skill && LastOfId(skills, i);
    }
  }

  /** Keying a list keeps one skill of each id, the one that counts, at the place of the first. */
  lemma {:induction false} KeyedContents(skills: seq<Skill>, skill: Skill)
    ensures SkillIds(Keyed(skills)) == Unique(SkillIds(skills))
    ensures skill in Keyed(skills) <==> InForce(skills, skill)
  {
    if skills != [] {
      var front, last := skills[..|skills| - 1], skills[|skills| - 1];
      assert skills == front + [last];
      KeyedContents(front, skill);
      WithSkillIds(Keyed(front), last);
      SkillIdsNext(front, last);
      UniqueLast(SkillIds(front), last.id);
      InForceNext(front, last, skill);
      hide Unique, InForce, SkillIds, WithSkill;
      assert Distinct(Unique(SkillIds(front)));
      DistinctIdsOf(Keyed(front));
      WithSkillContents(Keyed(front), last, skill);
    }
  }

  /** Exactly when an apply is refused, and when it is done. */
  lemma OutcomeIff(w: World, id: string, fault: Fault)
    requires NamedHistory(w.disk)
    ensures var ready := id in w.proposals && w.proposals[id].status == Accepted && w.proposals[id].skill.Some?;
            var outcome := AfterApply(w, id, fault).1;
            && (outcome == Refused <==> !ready)
            && (outcome.Done? <==>
                  && ready && !fault.transitionFails && !fault.auditFails
                  && !StopsEarly(w.disk, fault.write) && !NewHistoryLost(w.disk, fault.write))
            && (outcome == Refused ==> AfterApply(w, id, fault).0 == w)
  {
    if Applicable(w, id) {
      WrittenCases(w.disk, ApplyDoc(w, id), fault.write);
      WriteAndRevert(w.disk, ApplyDoc(w, id), fault.recover);
    }
  }

  /** After an apply that is done the head holds the proposal's skill and every skill that counted before
      under another id, and nothing else; known ids keep their place and a new one comes last. */
  lemma DoneKeepsOtherSkills(w: World, id: string, fault: Fault, skill: Skill)
    requires AfterApply(w, id, fault).1.Done?
    ensures id in w.proposals && w.proposals[id].skill.Some?
    ensures var w' := AfterApply(w, id, fault).0;
            var before := if w.disk.head.Some? then w.disk.head.value.skills else [];
            var applied := w.proposals[id].skill.value;
            && w'.disk.head.Some?
            && var after := w'.disk.head.value;
               && (skill in after.skills <==> skill == applied || (InForce(before, skill) && skill.id != applied.id))
               && SkillIds(after.skills) == Unique(SkillIds(before) + [applied.id])
               && after.version == HeadVersion(w.disk) + 1 && after.appliedFrom == Some(id)
               && after.change == ApplyChange && after.restoredFrom == None
               && after.previous == (if w.disk.head.Some? then Some(w.disk.head.value.version) else None)
               && w'.proposals == w.proposals[id := w.proposals[id].(status := Applied)]
  {
    var before := if w.disk.head.Some? then w.disk.head.value.skills else [];
    var applied := w.proposals[id].skill.value;
    WrittenCases(w.disk, ApplyDoc(w, id), fault.write);
    assert AfterApply(w, id, fault).0.disk.head == Some(ApplyDoc(w, id));
    assert ApplyDoc(w, id).skills == WithSkill(Keyed(before), applied);
    KeyedContents(before, skill);
    KeyedContents(before, applied);
    WithSkillIds(Keyed(before), applied);
    UniqueLast(SkillIds(before), applied.id);
    assert Distinct(Unique(SkillIds(before)));
    DistinctIdsOf(Keyed(before));
    WithSkillContents(Keyed(before), applied, skill);
    hide InForce, SkillIds, Unique, WithSkill, Keyed, Written, Reverted;
  }

  /** Where ids are distinct, as after every apply, each skill of the head counts. */
  lemma InForceIfDistinct(skills: seq<Skill>, skill: Skill)
    requires Distinct(SkillIds(skills))
    ensures InForce(skills, skill) <==> skill in skills
  {
    DistinctIdsOf(skills);
    if skill in skills {
      var i :| 0 <= i < |skills| && skills[i] == skill;
      assert LastOfId(skills, i);
    }
  }

  /** From an empty disk the head is the one skill. */
  lemma FirstApply(w: World, id: string, fault: Fault)
    requires w.disk == Disk(None, map[]) && AfterApply(w, id, fault).1.Done?
    ensures id in w.proposals && w.proposals[id].skill.Some?
    ensures AfterApply(w, id, fault).0.disk.head.Some?
    ensures AfterApply(w, id, fault).0.disk.head.value.skills == [w.proposals[id].skill.value]
  {
  }

  // ----- the life of a proposal -----

  /** A proposal that is enqueued, accepted and applied ends up applied, with its skill in the head. */
  lemma AcceptedProposalIsApplied(w: World, id: string, skill: Skill)
    requires id !in w.proposals
    ensures var w' := Run(w, [Enqueue(id, Some(skill)), Decision(id, Accepted), Apply(id, NO_FAULT)]);
            && StatusOf(w'.proposals, id) == Some(Applied)
            && w'.disk.head.Some? && skill in w'.disk.head.value.skills
  {
    var ops := [Enqueue(id, Some(skill)), Decision(id, Accepted), Apply(id, NO_FAULT)];
    var w1 := Step(w, ops[0]);
    var w2 := Step(w1, ops[1]);
    assert ops[1..][1..] == ops[2..] && ops[2..][1..] == [];
    assert Run(w, ops) == Run(w1, ops[1..]) == Run(w2, ops[2..]) == Run(Step(w2, ops[2]), []);
    assert w2.disk == w.disk && w2.proposals[id] == Proposal(Accepted, Some(skill));
    assert AfterApply(w2, id, NO_FAULT).1.Done?;
    DoneKeepsOtherSkills(w2, id, NO_FAULT, skill);
  }

  /** Rejected, expired and applied are final under every operation and fault. */
  lemma FinalStays(w: World, op: Op, id: string)
    requires id in w.proposals
    requires w.proposals[id].status == Rejected || w.proposals[id].status == Expired || w.proposals[id].status == Applied
    ensures id in Step(w, op).proposals && Step(w, op).proposals[id] == w.proposals[id]
  {
  }

  lemma {:induction false} WithSkillContents(skills: seq<Skill>, skill: Skill, other: Skill)
    requires forall i, j :: 0 <= i < j < |skills| ==> skills[i].id != skills[j].id
    ensures other in WithSkill(skills, skill) <==> other == skill || (other in skills && other.id != skill.id)
  {
    if skills != [] {
      assert skills == [skills[0]] + skills[1..];
      WithSkillContents(skills[1..], skill, other);
    }
  }
}
