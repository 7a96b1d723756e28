/**
 * Calibration steps and the `prev.map(...)` updates the page applies to its
 * step list. Every update keeps the list's length and each step's id, name,
 * description and prompt; only statuses change.
 */
module Steps {
  import opened JsText

  /** `CalibrationStep.status`. */
  datatype Status = Pending | InProgress | Completed | Failed | WaitingUser

  /** `CalibrationStep`: `prompt` is the optional `userPrompt`. */
  datatype Step = Step(id: string, name: string, description: string, status: Status, prompt: Option<string>)

  /** Two step lists that differ at most in their statuses. */
  predicate SameShape(a: seq<Step>, b: seq<Step>) {
    |a| == |b| &&
    forall k :: 0 <= k < |a| ==>
      a[k].id == b[k].id && a[k].name == b[k].name &&
      a[k].description == b[k].description && a[k].prompt == b[k].prompt
  }

  lemma SameShapeTransitive(a: seq<Step>, b: seq<Step>, c: seq<Step>)
    requires SameShape(a, b) && SameShape(b, c)
    ensures SameShape(a, c)
  {
  }

  /** Every step of the list has status `st`. */
  predicate AllAre(steps: seq<Step>, st: Status) {
    forall k :: 0 <= k < |steps| ==> steps[k].status == st
  }

  /**
   * `prev.map((step, idx) => idx === i ? completed : idx === i + 1 ? in-progress : step)`:
   * step `i` (if there is one) becomes completed, step `i + 1` (if there is one)
   * becomes in-progress, and every other step is left as it was.
   */
  function Advance(steps: seq<Step>, i: int): (r: seq<Step>)
    ensures SameShape(r, steps)
    ensures 0 <= i < |steps| ==> r[i].status == Completed
    ensures 0 <= i + 1 < |steps| ==> r[i + 1].status == InProgress
    ensures forall k :: 0 <= k < |steps| && k != i && k != i + 1 ==> r[k] == steps[k]
  {
    seq(|steps|, k requires 0 <= k < |steps| =>
      if k == i then steps[k].(status := Completed)
      else if k == i + 1 then steps[k].(status := InProgress)
      else steps[k])
  }

  /** `prev.map(step => ({ ...step, status: st }))`: every step gets status `st`. */
  function MarkAll(steps: seq<Step>, st: Status): (r: seq<Step>)
    ensures SameShape(r, steps)
    ensures AllAre(r, st)
  {
    seq(|steps|, k requires 0 <= k < |steps| => steps[k].(status := st))
  }

  /** `prev.map((step, idx) => idx === i ? { ...step, status: st } : step)`. */
  function MarkAt(steps: seq<Step>, i: int, st: Status): (r: seq<Step>)
    ensures SameShape(r, steps)
    ensures 0 <= i < |steps| ==> r[i].status == st
    ensures forall k :: 0 <= k < |steps| && k != i ==> r[k] == steps[k]
  {
    seq(|steps|, k requires 0 <= k < |steps| => if k == i then steps[k].(status := st) else steps[k])
  }

  /** Marking every step twice is marking it once; the last mark wins. */
  lemma MarkAllTwice(steps: seq<Step>, st: Status, st': Status)
    ensures MarkAll(MarkAll(steps, st), st') == MarkAll(steps, st')
  {
  }

  /** A list whose steps all have status `st` is its own `MarkAll(_, st)`. */
  lemma MarkAllFixed(steps: seq<Step>, st: Status)
    requires AllAre(steps, st)
    ensures MarkAll(steps, st) == steps
  {
  }

  /** `getStepStatusText`: the label shown beside a step. */
  function StatusText(st: Status): string {
    match st
    case Completed => "Done"
    case Failed => "Failed"
    case InProgress => "In Progress"
    case _ => "Pending"
  }

  /** `getStepStatus`: the colour classes of a step's badge. */
  function StatusStyle(st: Status): string {
    match st
    case Completed => "text-green-600 bg-green-50"
    case Failed => "text-red-600 bg-red-50"
    case InProgress => "text-yellow-600 bg-yellow-50"
    case _ => "text-gray-600 bg-gray-50"
  }

  /**
   * The label tells two statuses apart except pending and waiting-user, which
   * both fall to the switch's default and read "Pending".
   */
  lemma StatusTextDistinguishes(a: Status, b: Status)
    ensures StatusText(a) == StatusText(b) <==>
            a == b || (a in {Pending, WaitingUser} && b in {Pending, WaitingUser})
  {
  }

  lemma StatusStyleDistinguishes(a: Status, b: Status)
    ensures StatusStyle(a) == StatusStyle(b) <==>
            a == b || (a in {Pending, WaitingUser} && b in {Pending, WaitingUser})
  {
  }

  /** Label and badge colour always agree: the same statuses share both. */
  lemma TextAndStyleAgree(a: Status, b: Status)
    ensures StatusText(a) == StatusText(b) <==> StatusStyle(a) == StatusStyle(b)
  {
    StatusTextDistinguishes(a, b);
    StatusStyleDistinguishes(a, b);
  }
}
