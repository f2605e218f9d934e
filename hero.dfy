/**
 * The typewriter title cycler of the landing section (src/components/Hero.tsx).
 *
 * Three state cells, `loopIndex`, `displayText` and `isDeleting`, are driven by one
 * effect that runs whenever any of them changes. Each run looks at the current state,
 * picks one of three branches and schedules exactly one timer; the timer's callback
 * performs the branch's update, which changes a dependency, so the effect runs again.
 * The cleanup of a run clears its timer.
 *
 * The titles are a parameter: any non-empty sequence of strings.
 */
module Hero {
  import opened Wrappers

  /** Delay of a typing tick, in milliseconds. */
  const TypingSpeed: nat := 110
  /** Delay of a deleting tick. */
  const DeletingSpeed: nat := 70
  /** Pause with the whole title shown, before deleting starts. */
  const PauseAtFull: nat := 1200
  /** Pause with nothing shown, before the next title is typed. */
  const PauseAtEmpty: nat := 250

  /** U+00A0, rendered in place of an empty text so that the title line keeps its height. */
  const NoBreakSpace: char := '\U{00A0}'

  /** The three state cells. */
  datatype Cycle = Cycle(loopIndex: nat, displayText: string, isDeleting: bool)

  /** What a timer callback does when it fires. */
  datatype Action =
    | StartDeleting           // setIsDeleting(true)
    | NextTitle               // setIsDeleting(false) and setLoopIndex(prev => (prev + 1) % n)
    | SetText(text: string)   // setDisplayText(fullText.slice(0, nextLength))

  /** The one timer an effect run schedules: its delay and its callback. */
  datatype Plan = Plan(delayMs: nat, action: Action)

  /** The state on mount. */
  function Initial(): (c: Cycle)
    ensures c.loopIndex == 0 && c.displayText == "" && !c.isDeleting
  {
    Cycle(0, "", false)
  }

  /** The invariant of the cycler: the index names a title, and the text is a prefix of it. */
  predicate Invariant(titles: seq<string>, c: Cycle) {
    c.loopIndex < |titles| && c.displayText <= titles[c.loopIndex]
  }

  /**
   * `s.slice(0, end)` on a JavaScript string: a negative `end` counts back from the end of
   * `s`, and the result is always a prefix of `s`.
   */
  function Slice(s: string, end: int): (r: string)
    ensures r <= s
    ensures 0 <= end <= |s| ==> |r| == end
    ensures end >= |s| ==> r == s
  {
    var stop := if end < 0 then (if |s| + end > 0 then |s| + end else 0)
                else if end < |s| then end else |s|;
    s[..stop]
  }

  /** The branch one effect run takes, and the timer it schedules. */
  function Schedule(titles: seq<string>, c: Cycle): (p: Plan)
    requires c.loopIndex < |titles|
    ensures p.action == StartDeleting <==> !c.isDeleting && c.displayText == titles[c.loopIndex]
    ensures p.action == NextTitle <==> c.isDeleting && c.displayText == ""
    ensures p.action == StartDeleting ==> p.delayMs == PauseAtFull
    ensures p.action == NextTitle ==> p.delayMs == PauseAtEmpty
    ensures p.action.SetText? ==> p.delayMs == (if c.isDeleting then DeletingSpeed else TypingSpeed)
    ensures p.action.SetText? ==> p.action.text <= titles[c.loopIndex]
  {
    var fullText := titles[c.loopIndex];
    var typingSpeed := if c.isDeleting then DeletingSpeed else TypingSpeed;
    if !c.isDeleting && c.displayText == fullText then
      Plan(PauseAtFull, StartDeleting)
    else if c.isDeleting && c.displayText == "" then
      Plan(PauseAtEmpty, NextTitle)
    else
      var nextLength := |c.displayText| + (if c.isDeleting then -1 else 1);
      Plan(typingSpeed, SetText(Slice(fullText, nextLength)))
  }

  /** The state after a callback `a` runs against the live state `c`, with `n` titles. */
  function Apply(n: nat, c: Cycle, a: Action): (r: Cycle)
    requires c.loopIndex < n
    ensures r.loopIndex < n
    ensures a == NextTitle ==>
      r.loopIndex == (c.loopIndex + 1) % n && !r.isDeleting && r.displayText == c.displayText
    ensures a == StartDeleting ==> r.loopIndex == c.loopIndex && r.isDeleting && r.displayText == c.displayText
    ensures a.SetText? ==> r.loopIndex == c.loopIndex && r.isDeleting == c.isDeleting && r.displayText == a.text
  {
    match a
    case StartDeleting => c.(isDeleting := true)
    case NextTitle => c.(isDeleting := false, loopIndex := (c.loopIndex + 1) % n)
    case SetText(t) => c.(displayText := t)
  }

  /**
   * One tick: the update made by the timer that the effect schedules for `c`.
   * It keeps the invariant, and it always changes a dependency of the effect, so the
   * effect is always run again and the cycler never stalls.
   */
  function Step(titles: seq<string>, c: Cycle): (r: Cycle)
    requires c.loopIndex < |titles|
    ensures r.loopIndex < |titles|
    ensures Invariant(titles, c) ==> Invariant(titles, r)
    ensures r != c
  {
    Apply(|titles|, c, Schedule(titles, c).action)
  }

  /** What the title line shows: the text, or a no-break space while the text is empty. */
  function Rendered(displayText: string): (r: string)
    ensures |r| > 0
    ensures displayText != "" ==> r == displayText
    ensures displayText == "" ==> r == [NoBreakSpace]
  {
    if displayText != "" then displayText else [NoBreakSpace]
  }

  /** A typing tick shows one more character of the title, after 110 ms. */
  lemma TypingTick(titles: seq<string>, c: Cycle)
    requires Invariant(titles, c) && !c.isDeleting && c.displayText != titles[c.loopIndex]
    ensures Schedule(titles, c).delayMs == TypingSpeed
    ensures var r := Step(titles, c);
      r.loopIndex == c.loopIndex && !r.isDeleting &&
      |r.displayText| == |c.displayText| + 1 &&
      c.displayText < r.displayText <= titles[c.loopIndex]
  {
  }

  /** A deleting tick drops the last character, after 70 ms; the new length is never negative. */
  lemma DeletingTick(titles: seq<string>, c: Cycle)
    requires Invariant(titles, c) && c.isDeleting && c.displayText != ""
    ensures Schedule(titles, c).delayMs == DeletingSpeed
    ensures var r := Step(titles, c);
      r.loopIndex == c.loopIndex && r.isDeleting &&
      |r.displayText| == |c.displayText| - 1 && r.displayText < c.displayText
  {
  }

  /** With the whole title shown while typing, the only change is to start deleting, after 1200 ms. */
  lemma FullPause(titles: seq<string>, c: Cycle)
    requires c.loopIndex < |titles| && !c.isDeleting && c.displayText == titles[c.loopIndex]
    ensures Schedule(titles, c).delayMs == PauseAtFull
    ensures Step(titles, c) == Cycle(c.loopIndex, c.displayText, true)
  {
  }

  /** With nothing shown while deleting, the index moves on (wrapping) and typing resumes, after 250 ms. */
  lemma EmptyPause(titles: seq<string>, c: Cycle)
    requires c.loopIndex < |titles| && c.isDeleting && c.displayText == ""
    ensures Schedule(titles, c).delayMs == PauseAtEmpty
    ensures Step(titles, c) == Cycle((c.loopIndex + 1) % |titles|, "", false)
  {
  }

  /** The index changes only while the text is empty, so the text stays a prefix of the title. */
  lemma IndexMovesOnlyWhenEmpty(titles: seq<string>, c: Cycle)
    requires c.loopIndex < |titles|
    requires Step(titles, c).loopIndex != c.loopIndex
    ensures c.displayText == "" && Step(titles, c).displayText == ""
    ensures c.isDeleting && !Step(titles, c).isDeleting
  {
  }

  /** The state after `k` ticks from `c`. */
  function Run(titles: seq<string>, c: Cycle, k: nat): (r: Cycle)
    requires c.loopIndex < |titles|
    ensures r.loopIndex < |titles|
    ensures Invariant(titles, c) ==> Invariant(titles, r)
    decreases k
  {
    if k == 0 then c else Run(titles, Step(titles, c), k - 1)
  }

  /** The total of the delays of the first `k` ticks from `c`, in milliseconds. */
  function Elapsed(titles: seq<string>, c: Cycle, k: nat): nat
    requires c.loopIndex < |titles|
    decreases k
  {
    if k == 0 then 0 else Schedule(titles, c).delayMs + Elapsed(titles, Step(titles, c), k - 1)
  }

  /** From mount on, every reachable state keeps the invariant. */
  lemma AlwaysInvariant(titles: seq<string>, k: nat)
    requires |titles| > 0
    ensures Invariant(titles, Run(titles, Initial(), k))
  {
  }

  /** Running `a` ticks and then `b` ticks is running `a + b` ticks. */
  lemma {:induction false} RunSplit(titles: seq<string>, c: Cycle, a: nat, b: nat)
    requires c.loopIndex < |titles|
    ensures Run(titles, c, a + b) == Run(titles, Run(titles, c, a), b)
    ensures Elapsed(titles, c, a + b) == Elapsed(titles, c, a) + Elapsed(titles, Run(titles, c, a), b)
    decreases a
  {
    if a > 0 {
      RunSplit(titles, Step(titles, c), a - 1, b);
    }
  }

  /** Typing from the first `j` characters reaches the whole title in `|title| - j` ticks of 110 ms. */
  lemma {:induction false} TypingPhase(titles: seq<string>, i: nat, j: nat)
    requires i < |titles| && j <= |titles[i]|
    ensures Run(titles, Cycle(i, titles[i][..j], false), |titles[i]| - j) == Cycle(i, titles[i], false)
    ensures Elapsed(titles, Cycle(i, titles[i][..j], false), |titles[i]| - j) == TypingSpeed * (|titles[i]| - j)
    decreases |titles[i]| - j
  {
    var t := titles[i];
    if j == |t| {
      assert t[..j] == t;
    } else {
      var c := Cycle(i, t[..j], false);
      assert c.displayText != t by { assert |c.displayText| != |t|; }
      assert Step(titles, c) == Cycle(i, t[..j + 1], false);
      TypingPhase(titles, i, j + 1);
    }
  }

  /** Deleting from the first `j` characters empties the text in `j` ticks of 70 ms. */
  lemma {:induction false} DeletingPhase(titles: seq<string>, i: nat, j: nat)
    requires i < |titles| && j <= |titles[i]|
    ensures Run(titles, Cycle(i, titles[i][..j], true), j) == Cycle(i, "", true)
    ensures Elapsed(titles, Cycle(i, titles[i][..j], true), j) == DeletingSpeed * j
    decreases j
  {
    var t := titles[i];
    if j > 0 {
      var c := Cycle(i, t[..j], true);
      assert c.displayText != "" by { assert |c.displayText| == j; }
      assert Step(titles, c) == Cycle(i, t[..j - 1], true);
      DeletingPhase(titles, i, j - 1);
    }
  }

  /**
   * One full cycle: from the empty text of title `i` while typing, `|title|` typing ticks,
   * one pause at full, `|title|` deleting ticks and one pause at empty lead to the empty
   * text of the next title (wrapping), and take the sum of those delays.
   */
  lemma {:induction false} FullCycle(titles: seq<string>, i: nat)
    requires i < |titles|
    ensures var n := |titles[i]|;
      Run(titles, Cycle(i, "", false), 2 * n + 2) == Cycle((i + 1) % |titles|, "", false) &&
      Elapsed(titles, Cycle(i, "", false), 2 * n + 2) ==
        (TypingSpeed + DeletingSpeed) * n + PauseAtFull + PauseAtEmpty
  {
    var t := titles[i];
    var n := |t|;
    var c0 := Cycle(i, "", false);
    var c1 := Cycle(i, t, false);
    var c2 := Cycle(i, t, true);
    var c3 := Cycle(i, "", true);
    assert t[..0] == "";
    TypingPhase(titles, i, 0);
    assert Run(titles, c1, 1) == c2 && Elapsed(titles, c1, 1) == PauseAtFull by {
      FullPause(titles, c1);
    }
    assert t[..n] == t;
    DeletingPhase(titles, i, n);
    assert Run(titles, c3, 1) == Cycle((i + 1) % |titles|, "", false) && Elapsed(titles, c3, 1) == PauseAtEmpty by {
      EmptyPause(titles, c3);
    }
    RunSplit(titles, c2, n, 1);
    RunSplit(titles, c1, 1, n + 1);
    RunSplit(titles, c0, n, n + 2);
  }

  /** A scheduled `window.setTimeout`: its handle, delay and callback. */
  datatype Timer = Timer(handle: nat, delayMs: nat, action: Action)

  /** The mounted cycler: the three state cells and the single timer handle of the current effect run. */
  class TitleCycler {
    const titles: seq<string>
    var loopIndex: nat
    var displayText: string
    var isDeleting: bool
    /** The timer the latest effect run scheduled and that has neither fired nor been cleared. */
    var pending: Option<Timer>
    /** The handle the next `setTimeout` returns; handles are never reused. */
    var nextHandle: nat
    var mounted: bool

    function State(): Cycle
      reads this
    {
      Cycle(loopIndex, displayText, isDeleting)
    }

    /**
     * While mounted exactly one timer is pending, and it is the one the effect schedules
     * for the current state; after unmount none is.
     */
    ghost predicate Valid()
      reads this
    {
      Invariant(titles, State()) &&
      (mounted ==>
        pending.Some? && pending.value.handle < nextHandle &&
        pending.value.delayMs == Schedule(titles, State()).delayMs &&
        pending.value.action == Schedule(titles, State()).action) &&
      (!mounted ==> pending.None?)
    }

    /** Mounting: the initial state, then the first effect run. */
    constructor (titles: seq<string>)
      requires |titles| > 0
      ensures Valid() && mounted
      ensures this.titles == titles && State() == Initial()
      ensures pending == Some(Timer(0, Schedule(titles, Initial()).delayMs, Schedule(titles, Initial()).action))
    {
      this.titles := titles;
      loopIndex, displayText, isDeleting := 0, "", false;
      pending := None;
      nextHandle := 0;
      mounted := true;
      new;
      RunEffect();
    }

    /** One effect run: pick the branch for the current state and schedule its timer. */
    method RunEffect()
      requires Invariant(titles, State()) && pending.None? && mounted
      modifies this
      ensures Valid() && mounted && State() == old(State())
      ensures nextHandle == old(nextHandle) + 1
      ensures pending == Some(Timer(old(nextHandle), Schedule(titles, State()).delayMs, Schedule(titles, State()).action))
    {
      var plan := Schedule(titles, State());
      pending := Some(Timer(nextHandle, plan.delayMs, plan.action));
      nextHandle := nextHandle + 1;
    }

    /**
     * The browser runs the callback of timer `handle`. Only the pending timer acts, and it
     * acts on the state it was scheduled for: a cleared (stale) handle changes nothing.
     * After the update React re-renders, runs the cleanup (clearing the spent handle) and,
     * as a dependency changed, the effect again.
     */
    method Fire(handle: nat)
      requires Valid()
      modifies this
      ensures Valid() && mounted == old(mounted)
      ensures old(pending).Some? && old(pending).value.handle == handle ==>
        State() == Step(titles, old(State())) &&
        pending.Some? && pending.value.handle == old(nextHandle)
      ensures !(old(pending).Some? && old(pending).value.handle == handle) ==>
        State() == old(State()) && pending == old(pending) && nextHandle == old(nextHandle)
    {
      if pending.Some? && pending.value.handle == handle {
        var before := State();
        var action := pending.value.action;
        pending := None;
        match action {
          case StartDeleting =>
            isDeleting := true;
          case NextTitle =>
            isDeleting := false;
            loopIndex := (loopIndex + 1) % |titles|;
          case SetText(t) =>
            displayText := t;
        }
        if State() != before {
          RunEffect();
        }
      }
    }

    /** Unmounting: the cleanup clears the pending timer, so no callback runs afterwards. */
    method Unmount()
      requires Valid()
      modifies this
      ensures Valid() && !mounted && pending.None? && State() == old(State())
      ensures nextHandle == old(nextHandle)
    {
      pending := None;
      mounted := false;
    }
  }
}
