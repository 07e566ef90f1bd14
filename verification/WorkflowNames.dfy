/** Event and step names of the workflow adapter (packages/workflow/src/names.ts). */
module WorkflowNames {
  import opened Prelude

  predicate IsTokenChar(c: char) { 'a' <= c <= 'z' || '0' <= c <= '9' || c == '-' }

  /** NAME_RE */
  predicate IsToken(s: string) {
    s != "" && s[0] != '-' && forall i :: 0 <= i < |s| ==> IsTokenChar(s[i])
  }

  function Checked(token: string, name: string): Result<string> {
    if IsToken(token) then Ok(name) else Thrown
  }

  function WorkflowStartEvent(workflow: string): Result<string> {
    Checked(workflow, "jehad/workflow/" + workflow + "/start")
  }

  /** Run ids are not checked: they may hold anything, slashes too. */
  function SignalEvent(runId: string, signal: string): Result<string> {
    Checked(signal, "jehad/signal/" + runId + "/" + signal)
  }

  function ApprovalEvent(runId: string, approvalId: string): Result<string> {
    Checked(approvalId, "jehad/approval/" + runId + "/" + approvalId)
  }

  const SIGNAL_STEP := "wait:signal:"
  const APPROVAL_STEP := "wait:approval:"

  function SignalStepId(signal: string): Result<string> { Checked(signal, SIGNAL_STEP + signal) }

  function ApprovalStepId(approvalId: string): Result<string> { Checked(approvalId, APPROVAL_STEP + approvalId) }

  datatype WaitKind = WaitingSignal | WaitingApproval | NoWait

  function WaitKindOf(stepId: string): WaitKind {
    if SIGNAL_STEP <= stepId then WaitingSignal
    else if APPROVAL_STEP <= stepId then WaitingApproval
    else NoWait
  }

  /** The names as they are sent and stored, for tokens that begin with a letter or a digit and go on with those and hyphens. */
  lemma NamesAsWritten()
    ensures WorkflowStartEvent("a9-z") == Ok("jehad/workflow/" + "a9-z" + "/start")
    ensures WorkflowStartEvent("0") == Ok("jehad/workflow/" + "0" + "/start")
    ensures SignalEvent("r", "a") == Ok("jehad/signal/" + "r" + "/" + "a")
    ensures ApprovalEvent("r", "a") == Ok("jehad/approval/" + "r" + "/" + "a")
    ensures SignalStepId("a") == Ok("wait:signal:" + "a") && ApprovalStepId("a") == Ok("wait:approval:" + "a")
    ensures WorkflowStartEvent("").Thrown? && WorkflowStartEvent("-a").Thrown? && WorkflowStartEvent("A").Thrown?
  {
    assert "A"[0] == 'A';
  }

  /** A text without slashes after the last slash is found again. */
  lemma LastSlash(a: string, s: string, b: string, t: string)
    requires '/' !in s && '/' !in t && a + "/" + s == b + "/" + t
    ensures a == b && s == t
  {
    var whole := a + "/" + s;
    assert whole[|a|] == '/' && whole[|b|] == '/';
    assert whole[|a| + 1..] == s && whole[|b| + 1..] == t;
    assert whole[..|a|] == a && whole[..|b|] == b;
  }

  lemma TokenHasNoSlash(s: string)
    requires IsToken(s)
    ensures '/' !in s
  {
  }

  /** Two waits share a signal event only if they are the same wait of the same run. */
  lemma SignalEventsAreInjective(run1: string, signal1: string, run2: string, signal2: string)
    requires SignalEvent(run1, signal1).Ok? && SignalEvent(run1, signal1) == SignalEvent(run2, signal2)
    ensures run1 == run2 && signal1 == signal2
  {
    TokenHasNoSlash(signal1);
    TokenHasNoSlash(signal2);
    var p := "jehad/signal/";
    LastSlash(p + run1, signal1, p + run2, signal2);
    assert (p + run1)[|p|..] == run1 && (p + run2)[|p|..] == run2;
  }

  lemma ApprovalEventsAreInjective(run1: string, id1: string, run2: string, id2: string)
    requires ApprovalEvent(run1, id1).Ok? && ApprovalEvent(run1, id1) == ApprovalEvent(run2, id2)
    ensures run1 == run2 && id1 == id2
  {
    TokenHasNoSlash(id1);
    TokenHasNoSlash(id2);
    var p := "jehad/approval/";
    LastSlash(p + run1, id1, p + run2, id2);
    assert (p + run1)[|p|..] == run1 && (p + run2)[|p|..] == run2;
  }

  /** The three event families never meet, whatever the run ids hold. */
  lemma EventFamiliesAreDisjoint(workflow: string, run1: string, signal: string, run2: string, id: string)
    ensures WorkflowStartEvent(workflow).Ok? ==>
      WorkflowStartEvent(workflow) != SignalEvent(run1, signal) && WorkflowStartEvent(workflow) != ApprovalEvent(run2, id)
    ensures SignalEvent(run1, signal).Ok? ==> SignalEvent(run1, signal) != ApprovalEvent(run2, id)
  {
    assert ("jehad/workflow/" + workflow + "/start")[6] == 'w';
    assert ("jehad/signal/" + run1 + "/" + signal)[6] == 's';
    assert ("jehad/approval/" + run2 + "/" + id)[6] == 'a';
  }

  /** A paused step id tells which kind of wait it is, and for what. */
  lemma StepIdsTellTheWait(a: string, b: string)
    ensures SignalStepId(a).Ok? ==> WaitKindOf(SignalStepId(a).value) == WaitingSignal
    ensures ApprovalStepId(a).Ok? ==> WaitKindOf(ApprovalStepId(a).value) == WaitingApproval
    ensures SignalStepId(a).Ok? && SignalStepId(a) == SignalStepId(b) ==> a == b
    ensures ApprovalStepId(a).Ok? && ApprovalStepId(a) == ApprovalStepId(b) ==> a == b
    ensures WaitKindOf(a) == WaitingSignal <==> "wait:signal:" <= a
    ensures WaitKindOf(a) == WaitingApproval <==> "wait:approval:" <= a
  {
    assert "wait:signal:" <= a ==> a[5] == 's';
    assert "wait:approval:" <= a ==> a[5] == 'a';
    assert (APPROVAL_STEP + a)[5] == 'a' && SIGNAL_STEP[5] == 's';
    assert (SIGNAL_STEP + a)[|SIGNAL_STEP|..] == a && (SIGNAL_STEP + b)[|SIGNAL_STEP|..] == b;
    assert (APPROVAL_STEP + a)[|APPROVAL_STEP|..] == a && (APPROVAL_STEP + b)[|APPROVAL_STEP|..] == b;
  }
}
