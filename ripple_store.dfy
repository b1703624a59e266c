/**
 * The host-side ripple list: a bounded, oldest-first FIFO (`createRipple`)
 * and the fixed five-slot layout it is copied into for the shader
 * (`updateRippleUniforms`).
 */
module RippleStore {
  import opened RippleData

  /**
   * The list after `ripples.push(x)` followed by `ripples.shift()` when the
   * list then holds more than MAX_RIPPLES entries.
   */
  function Pushed(rs: seq<Ripple>, x: Ripple): (r: seq<Ripple>)
    ensures |r| > 0 && r[|r| - 1] == x
    ensures |rs| <= MAX_RIPPLES ==> |r| <= MAX_RIPPLES
    ensures |rs| < MAX_RIPPLES ==> r == rs + [x]
    ensures |rs| == MAX_RIPPLES ==> r == rs[1..] + [x]
  {
    var s := rs + [x];
    if |s| > MAX_RIPPLES then s[1..] else s
  }

  /**
   * The newest MAX_RIPPLES entries of a history of insertions, oldest first:
   * the whole history while it is short, otherwise its last MAX_RIPPLES.
   */
  function Window(h: seq<Ripple>): seq<Ripple> {
    if |h| <= MAX_RIPPLES then h else h[|h| - MAX_RIPPLES..]
  }

  /**
   * Pushing onto the window of a history is the window of the extended
   * history: the list always holds exactly the last five ripples created,
   * in creation order.
   */
  lemma {:induction false} PushedWindow(h: seq<Ripple>, x: Ripple)
    ensures |Window(h)| <= MAX_RIPPLES
    ensures Pushed(Window(h), x) == Window(h + [x])
  {
    var h' := h + [x];
    if |h| < MAX_RIPPLES {
      assert Window(h) == h;
    } else if |h| == MAX_RIPPLES {
      assert Window(h) == h;
      assert h'[|h'| - MAX_RIPPLES..] == h[1..] + [x];
    } else {
      assert h'[|h'| - MAX_RIPPLES..] == h[|h| - MAX_RIPPLES..][1..] + [x];
    }
  }

  /** Starting from an empty list, the list equals the window of everything pushed. */
  function PushAll(rs: seq<Ripple>, xs: seq<Ripple>): seq<Ripple>
    decreases |xs|
  {
    if xs == [] then rs else PushAll(Pushed(rs, xs[0]), xs[1..])
  }

  lemma {:induction false} PushAllWindow(h: seq<Ripple>, xs: seq<Ripple>)
    ensures PushAll(Window(h), xs) == Window(h + xs)
    decreases |xs|
  {
    if xs == [] {
      assert h + xs == h;
    } else {
      var h' := h + [xs[0]];
      assert h' + xs[1..] == h + xs;
      calc {
        PushAll(Window(h), xs);
        PushAll(Pushed(Window(h), xs[0]), xs[1..]);
        { PushedWindow(h, xs[0]); }
        PushAll(Window(h'), xs[1..]);
        { PushAllWindow(h', xs[1..]); }
        Window(h + xs);
      }
    }
  }

  /**
   * Six insertions into an empty list: the first is evicted and the oldest
   * survivor is the second one inserted.
   */
  lemma {:induction false} SixInsertionsEvictFirst(xs: seq<Ripple>)
    requires |xs| == MAX_RIPPLES + 1
    ensures PushAll([], xs) == xs[1..]
    ensures PushAll([], xs)[0] == xs[1]
  {
    assert Window([]) == [];
    PushAllWindow([], xs);
    assert [] + xs == xs;
  }

  /**
   * Unfolds `Window` into the two facts callers use: its length is
   * min(|h|, MAX_RIPPLES), and it is a suffix of the history.
   */
  lemma WindowIsSuffix(h: seq<Ripple>)
    ensures |Window(h)| <= MAX_RIPPLES
    ensures |Window(h)| == if |h| < MAX_RIPPLES then |h| else MAX_RIPPLES
    ensures Window(h) == h[|h| - |Window(h)|..]
  {
  }

  /** Slot values of the live ripples, in list order. */
  function Encode(rs: seq<Ripple>): seq<Vec4> {
    seq(|rs|, i requires 0 <= i < |rs| => ToSlot(rs[i]))
  }

  /** `n` inert placeholders. */
  function Padding(n: nat): seq<Vec4> {
    seq(n, _ => Inert)
  }

  /**
   * The contents of the `uRipples` uniform array once `updateRippleUniforms`
   * has run: exactly MAX_RIPPLES slots, the live ripples first in list
   * order, every remaining slot inert.
   */
  function Snapshot(rs: seq<Ripple>): (slots: seq<Vec4>)
    requires |rs| <= MAX_RIPPLES
    ensures |slots| == MAX_RIPPLES
    ensures forall i :: 0 <= i < |rs| ==> slots[i] == ToSlot(rs[i])
    ensures forall i :: |rs| <= i < MAX_RIPPLES ==> slots[i] == Inert && !IsActive(slots[i])
  {
    Encode(rs) + Padding(MAX_RIPPLES - |rs|)
  }

  /** The slots the shader's loop acts on, in slot order. */
  function ActiveSlots(slots: seq<Vec4>): seq<Vec4> {
    if slots == [] then []
    else
      var last := slots[|slots| - 1];
      ActiveSlots(slots[..|slots| - 1]) + (if IsActive(last) then [last] else [])
  }

  /** The ripples the shader sees in a slot array. */
  function Decode(slots: seq<Vec4>): seq<Ripple> {
    var live := ActiveSlots(slots);
    seq(|live|, i requires 0 <= i < |live| => FromSlot(live[i]))
  }

  lemma {:induction false} ActiveSlotsAppend(a: seq<Vec4>, b: seq<Vec4>)
    ensures ActiveSlots(a + b) == ActiveSlots(a) + ActiveSlots(b)
    decreases |b|
  {
    if b == [] {
      assert a + b == a;
    } else {
      var b' := b[..|b| - 1];
      assert (a + b)[..|a + b| - 1] == a + b';
      ActiveSlotsAppend(a, b');
    }
  }

  lemma {:induction false} ActiveSlotsPadding(n: nat)
    ensures ActiveSlots(Padding(n)) == []
  {
    if n > 0 {
      assert Padding(n)[..n - 1] == Padding(n - 1);
      ActiveSlotsPadding(n - 1);
    }
  }

  lemma {:induction false} ActiveSlotsEncode(rs: seq<Ripple>)
    requires forall i :: 0 <= i < |rs| ==> rs[i].strength > 0.0
    ensures ActiveSlots(Encode(rs)) == Encode(rs)
  {
    if rs != [] {
      var rs' := rs[..|rs| - 1];
      assert Encode(rs)[..|rs| - 1] == Encode(rs');
      ActiveSlotsEncode(rs');
    }
  }

  /**
   * The padding never reaches the shader: the active slots of a snapshot
   * are exactly the live ripples' slots, in list order.
   */
  lemma {:induction false} SnapshotActiveSlots(rs: seq<Ripple>)
    requires |rs| <= MAX_RIPPLES
    requires forall i :: 0 <= i < |rs| ==> rs[i].strength > 0.0
    ensures ActiveSlots(Snapshot(rs)) == Encode(rs)
  {
    ActiveSlotsAppend(Encode(rs), Padding(MAX_RIPPLES - |rs|));
    ActiveSlotsPadding(MAX_RIPPLES - |rs|);
    ActiveSlotsEncode(rs);
  }

  /**
   * The slot layout loses nothing and reorders nothing: reading back the
   * active slots of a snapshot gives the ripple list itself.
   */
  lemma {:induction false} SnapshotRoundTrip(rs: seq<Ripple>)
    requires |rs| <= MAX_RIPPLES
    requires forall i :: 0 <= i < |rs| ==> rs[i].strength > 0.0
    ensures Decode(Snapshot(rs)) == rs
  {
    SnapshotActiveSlots(rs);
    assert forall i :: 0 <= i < |rs| ==> Decode(Snapshot(rs))[i] == FromSlot(ToSlot(rs[i])) == rs[i];
  }

  /**
   * One insertion at time `t` into an empty list yields one active slot
   * (x, y, t, 1.0) followed by four inert placeholders.
   */
  lemma SingleInsertionSnapshot(p: Vec2, t: real)
    ensures Snapshot(Pushed([], Ripple(p, t, CREATED_STRENGTH)))
         == [Vec4(p.x, p.y, t, 1.0), Inert, Inert, Inert, Inert]
  {
  }
}
