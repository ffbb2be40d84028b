/** The configuration steps the two keys make: the display mode and the score window cycles. */
module Keys {
  import opened Wrappers

  /** The right key's mode step, Python's `(mode + 1) % 3`. */
  function NextMode(mode: int): (r: int)
    ensures 0 <= r < 3
    ensures (r - mode - 1) % 3 == 0
  {
    (mode + 1) % 3
  }

  /** Three right-key presses bring any mode in 0..2 back. */
  lemma ThreePressesRestoreMode(mode: int)
    requires 0 <= mode < 3
    ensures NextMode(NextMode(NextMode(mode))) == mode
  {
  }

  /** The left key's window step in mode 2, the table {0: 1, 1: 3, 3: 7, 7: 0}. */
  const WindowSteps: map<int, int> := map[0 := 1, 1 := 3, 3 := 7, 7 := 0]

  /** The next window; None where the table has no entry (Python raises KeyError). */
  function NextWindow(w: int): (r: Option<int>)
    ensures r.Some? <==> w in {0, 1, 3, 7}
    ensures r.Some? ==> r.value in {0, 1, 3, 7} && r.value != w
  {
    if w in WindowSteps then Some(WindowSteps[w]) else None
  }

  /** `n` left-key presses in mode 2 from window `w`. */
  function Presses(w: int, n: nat): Option<int> {
    if n == 0 then Some(w)
    else match Presses(w, n - 1)
      case None => None
      case Some(v) => NextWindow(v)
  }

  /** From 0, the presses visit 1, 3, 7 and come back to 0; so four presses leave any valid window unchanged. */
  lemma FourPressesRestoreWindow(w: int)
    requires w in {0, 1, 3, 7}
    ensures Presses(0, 1) == Some(1) && Presses(0, 2) == Some(3) && Presses(0, 3) == Some(7)
    ensures Presses(w, 4) == Some(w)
  {
  }
}
