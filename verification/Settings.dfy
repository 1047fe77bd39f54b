/** Publication of the machine settings file: concurrent saves and resets under one lock, in which
    any file operation may fail and the process may stop anywhere. */
module SettingsFiles {
  import opened Wrappers

  type Content = seq<bv8>

  /** A save writes its own temporary file without the lock. With the lock it judges the active
      file, copies it when it is not usable, and then puts the temporary file in its place. */
  datatype Stage = Writing | Written | Judging | MustCopy | Copying | Preserved | Over

  datatype Save = Save(content: Content, temp: Content, stage: Stage)

  /** A backup that is still being copied. */
  datatype Copy = Copy(name: string, partial: Content)

  /** `ever` (what has been active) and `offered` (the first content and everything given to a
      save) are history. */
  datatype State = State(
    active: Option<Content>, backups: map<string, Content>, copy: Option<Copy>,
    saves: seq<Save>, lock: Option<nat>,
    ever: set<Content>, offered: set<Content>)

  datatype Step =
    | Begin(content: Content)
    | Write(who: nat, length: nat)
    | Close(who: nat)
    | Enter(who: nat)
    | Judge(who: nat, readable: bool)
    | OpenBackup(who: nat, name: string)
    | CopyOn(who: nat, length: nat)
    | CloseBackup(who: nat)
    | Publish(who: nat)
    | Fail(who: nat)
    | Reset(name: string)
    | Crash

  predicate Locked(stage: Stage) {
    stage.Judging? || stage.MustCopy? || stage.Copying? || stage.Preserved?
  }

  predicate InStage(s: State, who: nat, stage: Stage) {
    who < |s.saves| && s.saves[who].stage == stage
  }

  predicate Enabled(s: State, step: Step) {
    match step
    case Begin(_) => true
    case Write(i, n) => InStage(s, i, Writing) && n <= |s.saves[i].content|
    case Close(i) => InStage(s, i, Writing) && s.saves[i].temp == s.saves[i].content
    case Enter(i) => InStage(s, i, Written) && s.lock.None?
    case Judge(i, _) => InStage(s, i, Judging)
    // Mode "xb" refuses a name that exists.
    case OpenBackup(i, name) => InStage(s, i, MustCopy) && name !in s.backups
    case CopyOn(i, n) => InStage(s, i, Copying) && s.active.Some? && n <= |s.active.value|
    case CloseBackup(i) => InStage(s, i, Copying) && s.copy.Some? && s.active == Some(s.copy.value.partial)
    case Publish(i) => InStage(s, i, Preserved)
    case Fail(i) => i < |s.saves| && !s.saves[i].stage.Over?
    case Reset(_) => s.lock.None?
    case Crash => true
  }

  function To(s: State, who: nat, stage: Stage): State
    requires who < |s.saves|
  {
    s.(saves := s.saves[who := s.saves[who].(stage := stage)])
  }

  /** A copy that is given up stays behind as it is. */
  function Settled(s: State): map<string, Content> {
    match s.copy
    case Some(c) => s.backups[c.name := c.partial]
    case None => s.backups
  }

  function Next(valid: Content -> bool, s: State, step: Step): State
    requires Enabled(s, step)
  {
    match step
    case Begin(c) => s.(saves := s.saves + [Save(c, [], Writing)], offered := s.offered + {c})
    case Write(i, n) => s.(saves := s.saves[i := s.saves[i].(temp := s.saves[i].content[..n])])
    case Close(i) => To(s, i, Written)
    case Enter(i) => To(s, i, Judging).(lock := Some(i))
    case Judge(i, readable) =>
      To(s, i, if s.active.None? || (readable && valid(s.active.value)) then Preserved else MustCopy)
    case OpenBackup(i, name) => To(s, i, Copying).(copy := Some(Copy(name, [])))
    case CopyOn(i, n) =>
      s.(copy := match s.copy case Some(c) => Some(Copy(c.name, s.active.value[..n])) case None => None)
    case CloseBackup(i) => To(s, i, Preserved).(backups := Settled(s), copy := None)
    case Publish(i) =>
      To(s, i, Over).(active := Some(s.saves[i].temp), lock := None, ever := s.ever + {s.saves[i].temp})
    case Fail(i) =>
      if Locked(s.saves[i].stage) then To(s, i, Over).(lock := None, backups := Settled(s), copy := None)
      else To(s, i, Over)
    case Reset(name) =>
      if s.active.None? then s
      else s.(active := None, backups := s.backups[name := s.active.value])
    case Crash =>
      s.(saves := seq(|s.saves|, i requires 0 <= i < |s.saves| => s.saves[i].(stage := Over)),
         lock := None, backups := Settled(s), copy := None)
  }

  function Init(active: Option<Content>, backups: map<string, Content>): State {
    var first := if active.Some? then {active.value} else {};
    State(active, backups, None, [], None, first, first)
  }

  ghost predicate Run(valid: Content -> bool, states: seq<State>, steps: seq<Step>) {
    && |states| == |steps| + 1
    && forall i | 0 <= i < |steps| :: Enabled(states[i], steps[i]) && states[i + 1] == Next(valid, states[i], steps[i])
  }

  /** A reset moves the active file to a name that is not taken. */
  ghost predicate FreshName(s: State, step: Step) {
    step.Reset? ==> step.name !in s.backups
  }

  // --------------------------------------------------------------- invariant

  ghost predicate Kept(backups: map<string, Content>, c: Content) {
    exists name :: name in backups && backups[name] == c
  }

  ghost predicate SaveOk(valid: Content -> bool, s: State, i: nat)
    requires i < |s.saves|
  {
    var v := s.saves[i];
    && v.content in s.offered
    && (Locked(v.stage) <==> s.lock == Some(i))
    && (v.stage.Written? || Locked(v.stage) ==> v.temp == v.content)
    && (v.stage.Copying? <==> s.copy.Some? && s.lock == Some(i))
    && (v.stage.Preserved? && s.active.Some? && !valid(s.active.value) ==> Kept(s.backups, s.active.value))
  }

  ghost predicate FilesOk(s: State) {
    && (s.active.Some? ==> s.active.value in s.ever)
    && s.ever <= s.offered
    && (s.lock.Some? ==> s.lock.value < |s.saves|)
    && (s.copy.Some? ==> s.lock.Some? && s.copy.value.name !in s.backups)
  }

  /** No content that the settings cannot use is ever lost. */
  ghost predicate NothingLost(valid: Content -> bool, s: State) {
    forall c | c in s.ever && !valid(c) :: s.active == Some(c) || Kept(s.backups, c)
  }

  ghost predicate Inv(valid: Content -> bool, s: State) {
    FilesOk(s) && NothingLost(valid, s) && forall i: nat | i < |s.saves| :: SaveOk(valid, s, i)
  }

  lemma Grows(a: map<string, Content>, b: map<string, Content>)
    requires forall n | n in a :: n in b && b[n] == a[n]
    ensures forall c :: Kept(a, c) ==> Kept(b, c)
  {
    forall c | Kept(a, c)
      ensures Kept(b, c)
    {
      var n :| n in a && a[n] == c;
      assert n in b && b[n] == c;
    }
  }

  lemma KeptAt(backups: map<string, Content>, name: string, c: Content)
    ensures Kept(backups[name := c], c)
  {
    assert name in backups[name := c];
  }

  lemma SettledGrows(s: State)
    requires FilesOk(s)
    ensures forall c :: Kept(s.backups, c) ==> Kept(Settled(s), c)
  {
    Grows(s.backups, Settled(s));
  }

  lemma FilesKept(valid: Content -> bool, s: State, step: Step)
    requires Inv(valid, s) && Enabled(s, step) && FreshName(s, step)
    ensures FilesOk(Next(valid, s, step)) && NothingLost(valid, Next(valid, s, step))
  {
    SettledGrows(s);
    if step.Publish? {
      assert SaveOk(valid, s, step.who);
    } else if step.CloseBackup? || step.Fail? || step.OpenBackup? || step.Enter? || step.Judge? || step.CopyOn? {
      assert SaveOk(valid, s, step.who);
    } else if step.Reset? && s.active.Some? {
      KeptAt(s.backups, step.name, s.active.value);
      Grows(s.backups, s.backups[step.name := s.active.value]);
    }
  }

  lemma SaveKept(valid: Content -> bool, s: State, step: Step, i: nat)
    requires Inv(valid, s) && Enabled(s, step) && FreshName(s, step) && i < |Next(valid, s, step).saves|
    ensures SaveOk(valid, Next(valid, s, step), i)
  {
    SettledGrows(s);
    if i < |s.saves| {
      assert SaveOk(valid, s, i);
    }
    if step.CloseBackup? {
      assert SaveOk(valid, s, step.who);
      KeptAt(s.backups, s.copy.value.name, s.copy.value.partial);
    } else if step.Publish? || step.Fail? || step.OpenBackup? || step.Enter? || step.Judge? || step.CopyOn? || step.Write? || step.Close? {
      assert SaveOk(valid, s, step.who);
    }
  }

  lemma StepKeeps(valid: Content -> bool, s: State, step: Step)
    requires Inv(valid, s) && Enabled(s, step) && FreshName(s, step)
    ensures Inv(valid, Next(valid, s, step))
  {
    FilesKept(valid, s, step);
    forall i: nat | i < |Next(valid, s, step).saves|
      ensures SaveOk(valid, Next(valid, s, step), i)
    {
      SaveKept(valid, s, step, i);
    }
  }

  lemma {:induction false} RunKeeps(valid: Content -> bool, states: seq<State>, steps: seq<Step>)
    requires Run(valid, states, steps) && Inv(valid, states[0])
    requires forall i | 0 <= i < |steps| :: FreshName(states[i], steps[i])
    ensures Inv(valid, states[|steps|])
    decreases |steps|
  {
    if steps != [] {
      var n := |steps| - 1;
      RunKeeps(valid, states[..n + 1], steps[..n]);
      StepKeeps(valid, states[n], steps[n]);
    }
  }

  // ---------------------------------------------------------------- theorems

  lemma {:induction false} HistoryHolds(valid: Content -> bool, states: seq<State>, steps: seq<Step>, i: nat)
    requires Run(valid, states, steps) && i <= |steps|
    ensures states[i].active.Some? && states[i].active.value in states[i].ever ==> states[i].active.value in states[|steps|].ever
    ensures forall c | c in states[|steps|].offered :: c in states[0].offered || exists j | 0 <= j < |steps| :: steps[j] == Begin(c)
    decreases |steps|
  {
    if steps != [] {
      var n := |steps| - 1;
      if i <= n {
        HistoryHolds(valid, states[..n + 1], steps[..n], i);
      } else {
        HistoryHolds(valid, states[..n + 1], steps[..n], n);
      }
      forall c | c in states[n + 1].offered
        ensures c in states[0].offered || exists j | 0 <= j < |steps| :: steps[j] == Begin(c)
      {
        if c in states[n].offered {
          if c !in states[0].offered {
            var j :| 0 <= j < n && steps[..n][j] == Begin(c);
            assert steps[j] == Begin(c);
          }
        } else {
          assert steps[n] == Begin(c);
        }
      }
    }
  }

  /** Nothing has been active since this point of the run. */
  ghost predicate AbsentSince(states: seq<State>, j: nat) {
    j < |states| && forall i | j <= i < |states| :: states[i].active.None?
  }

  /** The active file is absent only if it was so at first, or since a reset. */
  lemma {:induction false} AbsentOnlyAfterReset(valid: Content -> bool, states: seq<State>, steps: seq<Step>)
    requires Run(valid, states, steps) && states[|steps|].active.None?
    ensures AbsentSince(states, 0) || exists j: nat | 0 < j <= |steps| :: AbsentSince(states, j) && steps[j - 1].Reset?
    decreases |steps|
  {
    var n := |steps| - 1;
    if steps == [] {
    } else if states[n].active.Some? {
      assert AbsentSince(states, |steps|);
    } else {
      var before := states[..n + 1];
      AbsentOnlyAfterReset(valid, before, steps[..n]);
      if AbsentSince(before, 0) {
        AbsentLonger(states, before, 0);
      } else {
        var j: nat :| 0 < j <= n && AbsentSince(before, j) && steps[..n][j - 1].Reset?;
        AbsentLonger(states, before, j);
        assert steps[j - 1].Reset?;
      }
    }
  }

  lemma {:induction false} AbsentLonger(states: seq<State>, before: seq<State>, j: nat)
    requires before != [] && |states| == |before| + 1 && before == states[..|before|]
    requires AbsentSince(before, j) && states[|before|].active.None?
    ensures AbsentSince(states, j)
  {
    forall i | j <= i < |before|
      ensures states[i].active.None?
    {
      assert before[i].active.None?;
    }
  }

  /** Over every run of concurrent saves and resets, with any operation failing and the process
      stopping anywhere: the active file holds the first content or the whole of what some save
      was given, and every content that was ever active and that the settings cannot use is
      still there, byte for byte, as the active file or in a backup. */
  lemma {:induction false} SettingsTheorem(valid: Content -> bool, states: seq<State>, steps: seq<Step>, i: nat)
    requires Run(valid, states, steps) && states[0] == Init(states[0].active, states[0].backups) && i <= |steps|
    requires forall j | 0 <= j < |steps| :: FreshName(states[j], steps[j])
    ensures var s := states[|steps|];
            && (s.active.Some? ==> s.active == states[0].active || exists j | 0 <= j < |steps| :: steps[j] == Begin(s.active.value))
            && (states[i].active.Some? && !valid(states[i].active.value) ==>
                  s.active == states[i].active || Kept(s.backups, states[i].active.value))
  {
    RunKeeps(valid, states, steps);
    HistoryHolds(valid, states, steps, |steps|);
    HistoryHolds(valid, states, steps, i);
    assert Run(valid, states[..i + 1], steps[..i]);
    RunKeeps(valid, states[..i + 1], steps[..i]);
  }

  /** What the taken name of a reset costs: a content is lost exactly when that name was its last
      place. */
  lemma ResetKeepsIff(valid: Content -> bool, s: State, name: string)
    requires Inv(valid, s) && Enabled(s, Reset(name)) && s.active.Some?
    ensures NothingLost(valid, Next(valid, s, Reset(name))) <==>
            || name !in s.backups || s.backups[name] == s.active.value
            || s.backups[name] !in s.ever || valid(s.backups[name])
            || exists other :: other in s.backups && other != name && s.backups[other] == s.backups[name]
  {
    var t := Next(valid, s, Reset(name));
    KeptAt(s.backups, name, s.active.value);
    forall c | c in s.ever && !valid(c) && c != s.active.value && (name !in s.backups || c != s.backups[name])
      ensures Kept(t.backups, c)
    {
      var n :| n in s.backups && s.backups[n] == c;
      assert n in t.backups && t.backups[n] == c;
    }
    if name in s.backups && NothingLost(valid, t) && s.backups[name] in s.ever && !valid(s.backups[name]) && s.backups[name] != s.active.value {
      var n :| n in t.backups && t.backups[n] == s.backups[name];
      assert n in s.backups && n != name;
    }
    if other :| other in s.backups && other != name && name in s.backups && s.backups[other] == s.backups[name] {
      assert other in t.backups && t.backups[other] == s.backups[name];
    }
  }

  // ------------------------------------------------------------- the object

  /** The operation of a call that fails, if any. A copy may fail after some bytes. */
  datatype Fault = NoFault | TempFails | OpenFails | CopyFails(length: nat) | MoveFails

  /** What a save that meets a fault leaves behind: the active file and the backups. */
  function SaveEffect(
    active: Option<Content>, backups: map<string, Content>, usable: bool, content: Content, name: string, fault: Fault)
    : (Option<Content>, map<string, Content>)
  {
    var after := if fault.MoveFails? then active else Some(content);
    if fault.TempFails? then (active, backups)
    else if active.None? || usable then (after, backups)
    else if name in backups || fault.OpenFails? then (active, backups)
    else if fault.CopyFails? then (active, backups[name := Started(active.value, fault.length)])
    else (after, backups[name := active.value])
  }

  /** As much of a content as a copy has written when it fails. */
  function Started(c: Content, length: nat): Content {
    if length <= |c| then c[..length] else c
  }

  lemma StartedTells(c: Content, length: nat)
    ensures |Started(c, length)| == (if length <= |c| then length else |c|) && Started(c, length) <= c
  {
  }

  class SettingsFolder {
    const valid: Content -> bool
    var active: Option<Content>
    var backups: map<string, Content>

    constructor (valid: Content -> bool, active: Option<Content>, backups: map<string, Content>)
      ensures this.valid == valid && this.active == active && this.backups == backups
    {
      this.valid := valid;
      this.active := active;
      this.backups := backups;
    }

    predicate Usable(readable: bool)
      reads this`active
    {
      active.Some? && readable && valid(active.value)
    }

    /** A save copies an unusable file and leaves it in place; a reset moves whatever is there. */
    method Preserve(onlyInvalid: bool, readable: bool, name: string, fault: Fault) returns (ok: bool, preserved: Option<string>)
      modifies this`active, this`backups
      ensures preserved == (if ok && old(active).Some? && !(onlyInvalid && old(Usable(readable))) then Some(name) else None)
      ensures preserved.Some? ==> backups == old(backups)[name := old(active).value]
      ensures ok && preserved.None? ==> backups == old(backups)
      ensures active == if preserved.Some? && !onlyInvalid then None else old(active)
      ensures onlyInvalid && preserved.Some? ==> name !in old(backups)
      ensures ok <==>
              || old(active).None?
              || (onlyInvalid && (old(Usable(readable)) || (name !in old(backups) && !fault.OpenFails? && !fault.CopyFails?)))
              || (!onlyInvalid && !fault.MoveFails?)
      ensures !ok ==> forall n | n in old(backups) :: n in backups && backups[n] == old(backups)[n]
      ensures !ok && onlyInvalid && (name in old(backups) || fault.OpenFails?) ==> backups == old(backups)
      ensures !ok && onlyInvalid && name !in old(backups) && fault.CopyFails? && old(active).Some? ==>
                backups == old(backups)[name := Started(old(active).value, fault.length)]
    {
      if active.None? {
        return true, None;
      }
      var invalid := !Usable(readable);
      if onlyInvalid && !invalid {
        return true, None;
      }
      if onlyInvalid {
        if name in backups || fault.OpenFails? {
          return false, None;
        }
        backups := backups[name := []];
        if fault.CopyFails? {
          backups := backups[name := Started(active.value, fault.length)];
          return false, None;
        }
        backups := backups[name := active.value];
      } else {
        if fault.MoveFails? {
          return false, None;
        }
        backups := backups[name := active.value];
        active := None;
      }
      return true, Some(name);
    }

    /** A save that fails leaves the active file; one that succeeds has first copied what it found
        unusable under a name of its own. No earlier backup is touched either way. */
    method SaveConfig(content: Content, readable: bool, name: string, fault: Fault) returns (ok: bool, preserved: Option<string>)
      modifies this`active, this`backups
      ensures (active, backups) == SaveEffect(old(active), old(backups), old(Usable(readable)), content, name, fault)
      ensures active == if ok then Some(content) else old(active)
      ensures ok && old(active).Some? && !old(Usable(readable)) ==>
                preserved == Some(name) && name !in old(backups) && backups == old(backups)[name := old(active).value]
      ensures ok && (old(active).None? || old(Usable(readable))) ==> preserved == None && backups == old(backups)
      ensures forall n | n in old(backups) :: n in backups && backups[n] == old(backups)[n]
      ensures ok <==> !fault.TempFails? && !fault.MoveFails?
                      && (old(active).None? || old(Usable(readable))
                          || (name !in old(backups) && !fault.OpenFails? && !fault.CopyFails?))
    {
      if fault.TempFails? {
        return false, None;
      }
      var temp := content;
      ok, preserved := Preserve(true, readable, name, fault);
      if !ok {
        return;
      }
      if fault.MoveFails? {
        return false, preserved;
      }
      active := Some(temp);
    }

    method ResetConfig(readable: bool, name: string, fault: Fault) returns (ok: bool, preserved: Option<string>)
      modifies this`active, this`backups
      ensures ok ==> active == None && preserved == (if old(active).Some? then Some(name) else None)
      ensures ok && old(active).Some? ==> backups == old(backups)[name := old(active).value]
      ensures ok && old(active).None? ==> backups == old(backups)
      ensures !ok ==> active == old(active) && forall n | n in old(backups) :: n in backups && backups[n] == old(backups)[n]
      ensures ok <==> old(active).None? || !fault.MoveFails?
    {
      ok, preserved := Preserve(false, readable, name, fault);
    }
  }

  // ------------------------------------------------------ a call among the steps

  function Play(valid: Content -> bool, s: State, steps: seq<Step>): Option<State>
    decreases |steps|
  {
    if steps == [] then Some(s)
    else if !Enabled(s, steps[0]) then None
    else Play(valid, Next(valid, s, steps[0]), steps[1..])
  }

  lemma {:induction false} PlayMore(valid: Content -> bool, s: State, step: Step, rest: seq<Step>)
    requires Enabled(s, step)
    ensures Play(valid, s, [step] + rest) == Play(valid, Next(valid, s, step), rest)
  {
    assert ([step] + rest)[1..] == rest;
  }

  function WriteSteps(who: nat, content: Content, rest: seq<Step>): seq<Step> {
    [Begin(content)] + ([Write(who, |content|)] + ([Close(who)] + ([Enter(who)] + rest)))
  }

  function CopySteps(who: nat, name: string, length: nat, rest: seq<Step>): seq<Step> {
    [OpenBackup(who, name)] + ([CopyOn(who, length)] + ([CloseBackup(who)] + rest))
  }

  /** A save up to its lock. */
  function Entered(s: State, content: Content): State {
    s.(saves := s.saves + [Save(content, content, Judging)], lock := Some(|s.saves|), offered := s.offered + {content})
  }

  lemma {:induction false} WritePlays(valid: Content -> bool, s: State, content: Content, rest: seq<Step>)
    requires s.lock.None?
    ensures Play(valid, s, WriteSteps(|s.saves|, content, rest)) == Play(valid, Entered(s, content), rest)
  {
    var who := |s.saves|;
    var s1 := Next(valid, s, Begin(content));
    var s2 := Next(valid, s1, Write(who, |content|));
    var s3 := Next(valid, s2, Close(who));
    PlayMore(valid, s3, Enter(who), rest);
    PlayMore(valid, s2, Close(who), [Enter(who)] + rest);
    PlayMore(valid, s1, Write(who, |content|), [Close(who)] + ([Enter(who)] + rest));
    PlayMore(valid, s, Begin(content), [Write(who, |content|)] + ([Close(who)] + ([Enter(who)] + rest)));
    assert Next(valid, s3, Enter(who)).saves == Entered(s, content).saves;
  }

  lemma {:induction false} CopyPlays(valid: Content -> bool, s: State, who: nat, name: string, rest: seq<Step>)
    requires InStage(s, who, MustCopy) && s.active.Some? && name !in s.backups
    ensures Play(valid, s, CopySteps(who, name, |s.active.value|, rest))
            == Play(valid, To(s, who, Preserved).(backups := s.backups[name := s.active.value], copy := None), rest)
  {
    assert s.active.value[..|s.active.value|] == s.active.value;
    var s1 := Next(valid, s, OpenBackup(who, name));
    var s2 := Next(valid, s1, CopyOn(who, |s.active.value|));
    PlayMore(valid, s2, CloseBackup(who), rest);
    PlayMore(valid, s1, CopyOn(who, |s.active.value|), [CloseBackup(who)] + rest);
    PlayMore(valid, s, OpenBackup(who, name), [CopyOn(who, |s.active.value|)] + ([CloseBackup(who)] + rest));
    assert Next(valid, s2, CloseBackup(who)).saves == To(s, who, Preserved).saves;
  }

  /** What is left of a save once its file is judged, as the fault has it. */
  function LastSteps(who: nat, active: Option<Content>, taken: bool, usable: bool, name: string, fault: Fault): seq<Step> {
    var last := if fault.MoveFails? then Fail(who) else Publish(who);
    if active.None? || usable then [last]
    else if taken || fault.OpenFails? then [Fail(who)]
    else if fault.CopyFails? then
      [OpenBackup(who, name)] + ([CopyOn(who, |Started(active.value, fault.length)|)] + [Fail(who)])
    else CopySteps(who, name, |active.value|, [last])
  }

  function SaveSteps(who: nat, active: Option<Content>, taken: bool, usable: bool, readable: bool, content: Content, name: string, fault: Fault): seq<Step> {
    if fault.TempFails? then [Begin(content)] + [Fail(who)]
    else WriteSteps(who, content, [Judge(who, readable)] + LastSteps(who, active, taken, usable, name, fault))
  }

  lemma PlayLast(valid: Content -> bool, s: State, step: Step)
    requires Enabled(s, step)
    ensures Play(valid, s, [step]) == Some(Next(valid, s, step))
  {
    PlayMore(valid, s, step, []);
    assert [step] + [] == [step];
  }

  /** The end of a save that is preserved: published, or not. */
  lemma EndPlays(valid: Content -> bool, s: State, who: nat, fault: Fault)
    requires InStage(s, who, Preserved) && s.copy.None?
    ensures var end := Play(valid, s, [if fault.MoveFails? then Fail(who) else Publish(who)]);
            && end.Some? && end.value.lock.None? && end.value.copy.None? && end.value.backups == s.backups
            && end.value.active == if fault.MoveFails? then s.active else Some(s.saves[who].temp)
  {
    PlayLast(valid, s, if fault.MoveFails? then Fail(who) else Publish(who));
  }

  /** A copy that fails after some bytes stays behind. */
  lemma BrokenCopyPlays(valid: Content -> bool, s: State, who: nat, name: string, length: nat)
    requires InStage(s, who, MustCopy) && s.active.Some? && name !in s.backups && s.copy.None?
    ensures var c := Started(s.active.value, length);
            var end := Play(valid, s, [OpenBackup(who, name)] + ([CopyOn(who, |c|)] + [Fail(who)]));
            && end.Some? && end.value.lock.None? && end.value.copy.None?
            && end.value.backups == s.backups[name := c] && end.value.active == s.active
  {
    var c := Started(s.active.value, length);
    var s1 := Next(valid, s, OpenBackup(who, name));
    var s2 := Next(valid, s1, CopyOn(who, |c|));
    PlayMore(valid, s, OpenBackup(who, name), [CopyOn(who, |c|)] + [Fail(who)]);
    PlayMore(valid, s1, CopyOn(who, |c|), [Fail(who)]);
    PlayLast(valid, s2, Fail(who));
    assert s.active.value[..|c|] == c;
  }

  /** From the judgement on. */
  lemma {:induction false} JudgedPlays(valid: Content -> bool, s: State, who: nat, readable: bool, name: string, fault: Fault, content: Content)
    requires InStage(s, who, Judging) && s.lock == Some(who) && s.copy.None? && s.saves[who].temp == content && !fault.TempFails?
    ensures var usable := s.active.Some? && readable && valid(s.active.value);
            var end := Play(valid, s, [Judge(who, readable)] + LastSteps(who, s.active, name in s.backups, usable, name, fault));
            && end.Some? && end.value.lock.None? && end.value.copy.None?
            && (end.value.active, end.value.backups) == SaveEffect(s.active, s.backups, usable, content, name, fault)
  {
    var usable := s.active.Some? && readable && valid(s.active.value);
    var last := LastSteps(who, s.active, name in s.backups, usable, name, fault);
    var u := Next(valid, s, Judge(who, readable));
    PlayMore(valid, s, Judge(who, readable), last);
    if s.active.None? || usable {
      EndPlays(valid, u, who, fault);
    } else if name in s.backups || fault.OpenFails? {
      PlayLast(valid, u, Fail(who));
    } else if fault.CopyFails? {
      BrokenCopyPlays(valid, u, who, name, fault.length);
    } else {
      CopyPlays(valid, u, who, name, [if fault.MoveFails? then Fail(who) else Publish(who)]);
      EndPlays(valid, To(u, who, Preserved).(backups := u.backups[name := u.active.value], copy := None), who, fault);
    }
  }

  /** An undisturbed save, whatever fails in it and whether or not its backup name is taken, is a
      run of the interleaved system with the same effect on the files as the object's. */
  lemma SaveIsRun(valid: Content -> bool, s: State, content: Content, readable: bool, name: string, fault: Fault)
    requires s.lock.None? && s.copy.None?
    ensures var usable := s.active.Some? && readable && valid(s.active.value);
            var end := Play(valid, s, SaveSteps(|s.saves|, s.active, name in s.backups, usable, readable, content, name, fault));
            && end.Some? && end.value.lock.None? && end.value.copy.None?
            && (end.value.active, end.value.backups) == SaveEffect(s.active, s.backups, usable, content, name, fault)
  {
    var who := |s.saves|;
    var usable := s.active.Some? && readable && valid(s.active.value);
    if fault.TempFails? {
      PlayMore(valid, s, Begin(content), [Fail(who)]);
      PlayLast(valid, Next(valid, s, Begin(content)), Fail(who));
    } else {
      WritePlays(valid, s, content, [Judge(who, readable)] + LastSteps(who, s.active, name in s.backups, usable, name, fault));
      JudgedPlays(valid, Entered(s, content), who, readable, name, fault, content);
    }
  }

  /** A reset of the interleaved system does to the files what the object's reset does when nothing
      fails: the active file, if there is one, is moved to the name, and nothing else changes. */
  lemma ResetIsStep(valid: Content -> bool, s: State, name: string)
    requires Enabled(s, Reset(name))
    ensures var t := Next(valid, s, Reset(name));
            && t.active == None && t.saves == s.saves && t.copy == s.copy
            && t.backups == if s.active.Some? then s.backups[name := s.active.value] else s.backups
  {
  }

  /** What a failing operation of a save, or a stop of the process, leaves behind: the active file as it
      was, and of a copy that had begun what had been written of it. */
  lemma StopTells(valid: Content -> bool, s: State, step: Step)
    requires Inv(valid, s) && Enabled(s, step) && (step.Fail? || step.Crash?)
    ensures var t := Next(valid, s, step);
            && t.active == s.active && |t.saves| == |s.saves|
            && (step.Crash? ==> t.lock.None? && forall i | 0 <= i < |t.saves| :: t.saves[i].stage.Over?)
            && (step.Fail? ==> t.saves[step.who].stage.Over? && t.lock == (if s.lock == Some(step.who) then None else s.lock)
                               && forall i | 0 <= i < |t.saves| && i != step.who :: t.saves[i] == s.saves[i])
            && (if step.Crash? || s.lock == Some(step.who)
                then t.copy.None? && t.backups == (if s.copy.Some? then s.backups[s.copy.value.name := s.copy.value.partial] else s.backups)
                else t.copy == s.copy && t.backups == s.backups)
  {
    if step.Fail? {
      assert SaveOk(valid, s, step.who);
    }
  }

  /** A save is published only with everything that was given to it, and makes just that the active file. */
  lemma PublishTells(valid: Content -> bool, s: State, who: nat)
    requires Inv(valid, s) && Enabled(s, Publish(who))
    ensures var t := Next(valid, s, Publish(who));
            t.active == Some(s.saves[who].content) && t.backups == s.backups && t.lock.None? && t.saves[who].stage.Over?
  {
    assert SaveOk(valid, s, who);
  }
}
