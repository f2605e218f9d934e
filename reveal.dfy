/**
 * The reveal-on-scroll wrapper (src/components/Reveal.tsx).
 *
 * A one-shot flag `isVisible` starts false. The mount effect (dependencies `[]`, so it
 * runs once) creates an IntersectionObserver on the wrapper element, if the element
 * exists. The first entry that reports an intersection sets the flag and disconnects the
 * observer; nothing ever clears the flag. Two render outputs derive from the flag.
 *
 * The observer is abstracted to the stream of `isIntersecting` values of the entries it
 * delivers, plus whether it is still connected.
 */
module Reveal {
  import opened Wrappers
  import Decimal

  /** The flag, and whether an observer is connected and will deliver entries. */
  datatype Observation = Observation(isVisible: bool, connected: bool)

  /** After the mount effect: still hidden; an observer is connected only if the element exists. */
  function Mount(hasElement: bool): (o: Observation)
    ensures !o.isVisible
    ensures o.connected <==> hasElement
  {
    Observation(false, hasElement)
  }

  /** The observer callback for an entry; a disconnected observer delivers nothing. */
  function OnEntry(o: Observation, isIntersecting: bool): (r: Observation)
    ensures o.isVisible ==> r.isVisible
    ensures !o.connected || !isIntersecting ==> r == o
    ensures o.connected && isIntersecting ==> r.isVisible && !r.connected
  {
    if o.connected && isIntersecting then Observation(true, false) else o
  }

  /** The state after the observer has been offered `entries`, in order. */
  function OnEntries(o: Observation, entries: seq<bool>): Observation
    decreases |entries|
  {
    if entries == [] then o else OnEntries(OnEntry(o, entries[0]), entries[1..])
  }

  /**
   * The flag ends up set exactly when it was set already or the observer was connected and
   * some entry intersected; the observer stays connected exactly when it was and none did.
   */
  lemma {:induction false} OnEntriesExactly(o: Observation, entries: seq<bool>)
    ensures OnEntries(o, entries).isVisible <==> o.isVisible || (o.connected && true in entries)
    ensures OnEntries(o, entries).connected <==> o.connected && true !in entries
    decreases |entries|
  {
    if entries != [] {
      OnEntriesExactly(OnEntry(o, entries[0]), entries[1..]);
      assert entries == [entries[0]] + entries[1..];
    }
  }

  /** One-shot: once visible, no sequence of entries hides the block again. */
  lemma StaysVisible(o: Observation, entries: seq<bool>)
    requires o.isVisible
    ensures OnEntries(o, entries).isVisible
  {
    OnEntriesExactly(o, entries);
  }

  /** Without an element no observer is created, so the block is never revealed. */
  lemma {:induction false} NoElementNeverReveals(entries: seq<bool>)
    ensures OnEntries(Mount(false), entries) == Mount(false)
    decreases |entries|
  {
    if entries != [] {
      NoElementNeverReveals(entries[1..]);
    }
  }

  /** With an element, the observer is connected exactly while the block is still hidden. */
  lemma ConnectedUntilRevealed(entries: seq<bool>)
    ensures OnEntries(Mount(true), entries).connected == !OnEntries(Mount(true), entries).isVisible
  {
    OnEntriesExactly(Mount(true), entries);
  }

  /** The class that marks a revealed block. */
  const VisibleClass: string := "reveal-visible"

  /** `w` occurs in `s` starting at index `k`. */
  predicate OccursAt(s: string, w: string, k: nat) {
    k + |w| <= |s| && s[k..k + |w|] == w
  }

  predicate Contains(s: string, w: string) {
    exists k: nat | k <= |s| :: OccursAt(s, w, k)
  }

  /**
   * The `className` of the wrapper: `reveal `, the visible class when revealed, a space and
   * the caller's classes.
   */
  function ClassList(isVisible: bool, className: string): (r: string)
    ensures |r| >= 8 + |className| && r[..7] == "reveal "
    ensures r[|r| - |className|..] == className
    ensures OccursAt(r, VisibleClass, 7) <==> isVisible
  {
    var r := "reveal " + (if isVisible then VisibleClass else "") + " " + className;
    assert !isVisible ==> r[7] == ' ' != VisibleClass[0];
    r
  }

  /** The visible class cannot start inside the leading `reveal  ` of a hidden block's class list. */
  lemma NoOccurrenceInPrefix(className: string, k: nat)
    requires k < 8
    ensures !OccursAt("reveal  " + className, VisibleClass, k)
  {
    var r := "reveal  " + className;
    if k == 0 {
      assert r[6] == ' ' != VisibleClass[6];
    } else {
      assert r[k] != 'r' == VisibleClass[0];
    }
  }

  /**
   * Unless the caller's own classes contain it, the visible class appears in the class list
   * exactly when the block is revealed.
   */
  lemma VisibleClassExactly(isVisible: bool, className: string)
    requires !Contains(className, VisibleClass)
    ensures Contains(ClassList(isVisible, className), VisibleClass) <==> isVisible
  {
    var r := ClassList(isVisible, className);
    if isVisible {
      assert OccursAt(r, VisibleClass, 7);
    } else {
      assert r == "reveal  " + className;
      forall k: nat | OccursAt(r, VisibleClass, k)
        ensures false
      {
        assert r[k..k + |VisibleClass|] == VisibleClass;
        if k < 8 {
          NoOccurrenceInPrefix(className, k);
        } else {
          assert className[k - 8..k - 8 + |VisibleClass|] == r[k..k + |VisibleClass|];
          assert OccursAt(className, VisibleClass, k - 8);
        }
      }
    }
  }

  /** The `transitionDelay` style: the caller's delay in milliseconds once revealed, `0ms` before. */
  function TransitionDelay(isVisible: bool, delay: int): (r: string)
    ensures |r| >= 3 && r[|r| - 2..] == "ms"
    ensures !isVisible ==> r == "0ms"
    ensures isVisible ==> Decimal.Parse(r[..|r| - 2]) == Some(delay)
    ensures isVisible ==> r[..|r| - 2] == Decimal.Show(delay)
  {
    if isVisible then
      Decimal.ParseShow(delay);
      assert (Decimal.Show(delay) + "ms")[..|Decimal.Show(delay)|] == Decimal.Show(delay);
      Decimal.Show(delay) + "ms"
    else "0ms"
  }

  /** A mounted wrapper: its props (with their defaults applied) and its state. */
  class RevealWrapper {
    const className: string
    const delay: int
    var isVisible: bool
    var connected: bool

    function State(): Observation
      reads this
    {
      Observation(isVisible, connected)
    }

    /** A connected observer means the block has not been revealed yet. */
    ghost predicate Valid()
      reads this
    {
      connected ==> !isVisible
    }

    /**
     * Mounting with optional props (`className` defaults to "", `delay` to 0): the first
     * render is hidden, then the effect connects an observer if the element exists.
     */
    constructor (className: Option<string>, delay: Option<int>, hasElement: bool)
      ensures Valid()
      ensures this.className == className.GetOr("") && this.delay == delay.GetOr(0)
      ensures State() == Mount(hasElement)
    {
      this.className := className.GetOr("");
      this.delay := delay.GetOr(0);
      isVisible := false;
      connected := false;
      new;
      if hasElement {
        connected := true;
      }
    }

    /** The observer delivers an entry: an intersecting one reveals and disconnects. */
    method Intersect(isIntersecting: bool)
      requires Valid()
      modifies this
      ensures Valid()
      ensures State() == OnEntry(old(State()), isIntersecting)
    {
      if connected && isIntersecting {
        isVisible := true;
        connected := false;
      }
    }

    /** Unmounting: the cleanup disconnects the observer; the flag is kept. */
    method Unmount()
      requires Valid()
      modifies this
      ensures Valid() && !connected && isVisible == old(isVisible)
    {
      connected := false;
    }

    /** The rendered class list. */
    function Class(): string
      reads this
    {
      ClassList(isVisible, className)
    }

    /** The rendered `transitionDelay`. */
    function Style(): string
      reads this
    {
      TransitionDelay(isVisible, delay)
    }
  }
}
