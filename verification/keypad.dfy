/** The PIN gate in front of the dashboard: a keypad that appends digits to a
    buffer of at most five, grants access on the fixed code, and empties the
    buffer after a wrong fifth digit or on the clear keys. */
module Keypad {

  /** `PIN_CORRECTO`. */
  const PIN_CORRECTO: string := "28010"

  /** The two pieces of state the gate uses: `pin` and `accesoConcedido`. */
  datatype Gate = Gate(pin: string, granted: bool)

  const INITIAL: Gate := Gate("", false)

  /** The keypad's "C" and "⌫" buttons both empty the whole buffer. */
  predicate IsClearKey(key: char)
  {
    key == 'C' || key == '⌫'
  }

  /** `manejarTecla`: a full buffer ignores the key; otherwise the key is
      appended, the fixed code grants access, and any other fifth key
      empties the buffer. Access, once granted, is never withdrawn here. */
  function HandleKey(g: Gate, key: char): (r: Gate)
    ensures |g.pin| >= 5 ==> r == g
    ensures |g.pin| < 5 ==> (r.granted <==> g.granted || g.pin + [key] == PIN_CORRECTO)
    ensures |g.pin| < 4 ==> r.pin == g.pin + [key]
    ensures |g.pin| == 4 ==> r.pin == (if g.pin + [key] == PIN_CORRECTO then PIN_CORRECTO else "")
  {
    if |g.pin| < 5 then
      var nuevoPin := g.pin + [key];
      if nuevoPin == PIN_CORRECTO then Gate(nuevoPin, true)
      else if |nuevoPin| == 5 then Gate("", g.granted)
      else Gate(nuevoPin, g.granted)
    else g
  }

  /** One button press: the clear keys empty the buffer, the others go to
      `manejarTecla`. */
  function PressKey(g: Gate, key: char): Gate
  {
    if IsClearKey(key) then Gate("", g.granted) else HandleKey(g, key)
  }

  /** The state after pressing `keys` in order. */
  function PressAll(g: Gate, keys: string): Gate
  {
    if |keys| == 0 then g else PressKey(PressAll(g, keys[..|keys| - 1]), keys[|keys| - 1])
  }

  /** While access is denied the buffer never holds five keys. */
  predicate Consistent(g: Gate)
  {
    g.granted || |g.pin| <= 4
  }

  lemma PressKeyKeepsConsistent(g: Gate, key: char)
    requires Consistent(g)
    ensures Consistent(PressKey(g, key))
  {
  }

  /** Up to four digits from an empty buffer are just collected. */
  lemma {:induction false} ShortEntryCollects(w: string, b: bool)
    requires |w| <= 4
    requires forall i :: 0 <= i < |w| ==> !IsClearKey(w[i])
    ensures PressAll(Gate("", b), w) == Gate(w, b)
  {
    if |w| > 0 {
      var init := w[..|w| - 1];
      ShortEntryCollects(init, b);
      assert init + [w[|w| - 1]] == w;
    }
  }

  /** Five digits from an empty buffer either are the code, and access is
      granted, or are not, and the buffer is empty again. */
  lemma {:induction false} FiveDigitsFromEmpty(w: string, b: bool)
    requires |w| == 5
    requires forall i :: 0 <= i < |w| ==> !IsClearKey(w[i])
    ensures PressAll(Gate("", b), w) == if w == PIN_CORRECTO then Gate(PIN_CORRECTO, true) else Gate("", b)
  {
    ShortEntryCollects(w[..4], b);
    assert w[..4] + [w[4]] == w;
  }

  /** Pressing `a` then `b` is pressing `a + b`. */
  lemma {:induction false} PressAllAppend(g: Gate, a: string, b: string)
    ensures PressAll(g, a + b) == PressAll(PressAll(g, a), b)
    decreases |b|
  {
    if |b| == 0 {
      assert a + b == a;
    } else {
      var init := b[..|b| - 1];
      PressAllAppend(g, a, init);
      assert (a + b)[..|a + b| - 1] == a + init;
    }
  }

  /** From any state, "C" followed by the code grants access. */
  lemma ClearThenCodeGrants(g: Gate)
    ensures PressAll(g, ['C'] + PIN_CORRECTO).granted
  {
    PressAllAppend(g, ['C'], PIN_CORRECTO);
    assert ['C'][..0] == [];
    FiveDigitsFromEmpty(PIN_CORRECTO, g.granted);
  }

  /** Runs the keypad over a sequence of presses. */
  method EnterKeys(keys: string) returns (g: Gate)
    ensures g == PressAll(INITIAL, keys)
    ensures Consistent(g)
    ensures !g.granted ==> |g.pin| <= 4
  {
    g := INITIAL;
    var i := 0;
    while i < |keys|
      invariant 0 <= i <= |keys|
      invariant g == PressAll(INITIAL, keys[..i])
      invariant Consistent(g)
    {
      assert keys[..i + 1][..i] == keys[..i];
      PressKeyKeepsConsistent(g, keys[i]);
      g := PressKey(g, keys[i]);
      i := i + 1;
    }
    assert keys[..|keys|] == keys;
  }
}
