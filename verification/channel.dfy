/**
 One switch channel ("gang", labelled `wippe1` or `wippe2`) of a CozyLife
 device: how it reads its on/off value out of the device's state mapping, and
 the read-modify-write of the shared state word that turns it on or off.

 The device reports its state as a mapping from data-point id to integer; the
 data point `"1"` is a bit field with one bit per channel. Channel `wippe1`
 owns bit 0 (mask 0x01) and channel `wippe2` owns bit 1 (mask 0x02). Any other
 label owns no bit: reading leaves the cached value as it was, and a command
 sends the word back unchanged.
 */
module Channel {
  import opened Wrappers
  import opened PyBits

  /** The device's state mapping, data-point id to value. */
  type RawState = map<string, int>

  /** The data point holding the channels' bit field. */
  const SwitchKey: string := "1"

  const Wippe1: string := "wippe1"
  const Wippe2: string := "wippe2"

  /** `state.get('1', 0)`: the bit field, read as 0 when the device did not report it. */
  function Word(s: RawState): int
  {
    if SwitchKey in s then s[SwitchKey] else 0
  }

  /** The bit a channel label owns, if any. */
  function BitIndex(wippe: string): Option<nat>
  {
    if wippe == Wippe1 then Some(0)
    else if wippe == Wippe2 then Some(1)
    else None
  }

  /** The masks are the constants 0x01 and 0x02, one bit each, and distinct. */
  lemma MaskConstants()
    ensures BitIndex(Wippe1) == Some(0) && Pow2(0) == 0x01
    ensures BitIndex(Wippe2) == Some(1) && Pow2(1) == 0x02
  {
  }

  /**
   The on/off value a channel reads from a state mapping: `(w & mask) == mask`
   for its own mask, or the previous value `prev` for a label without a bit.
   */
  function IsOn(wippe: string, s: RawState, prev: bool): bool
  {
    match BitIndex(wippe)
    case Some(k) => And(Word(s), Pow2(k)) == Pow2(k)
    case None => prev
  }

  /** The word a turn-on sends: `w | mask`. */
  function OnWord(wippe: string, w: int): int
  {
    match BitIndex(wippe)
    case Some(k) => Or(w, Pow2(k))
    case None => w
  }

  /** The word a turn-off sends: `w & ~mask`. */
  function OffWord(wippe: string, w: int): int
  {
    match BitIndex(wippe)
    case Some(k) => And(w, Not(Pow2(k)))
    case None => w
  }

  function Toggled(wippe: string, w: int, on: bool): int
  {
    if on then OnWord(wippe, w) else OffWord(wippe, w)
  }

  /**
   The control payload of a turn-on (`on`) or turn-off (`!on`) issued from the
   cached state `s`: a mapping with the single key `"1"`.
   */
  function Payload(wippe: string, s: RawState, on: bool): (p: RawState)
    ensures p.Keys == {SwitchKey}
    ensures Word(p) == Toggled(wippe, Word(s), on)
  {
    map[SwitchKey := Toggled(wippe, Word(s), on)]
  }

  /** `(w & mask) == mask` holds exactly when the mask's one bit is set in `w`. */
  lemma MaskTest(w: int, k: nat)
    ensures (And(w, Pow2(k)) == Pow2(k)) == Bit(w, k)
  {
    var a := And(w, Pow2(k));
    forall j: nat
      ensures Bit(a, j) == (Bit(w, j) && j == k)
    {
      BitAnd(w, Pow2(k), j);
      BitPow2(k, j);
    }
    if Bit(w, k) {
      forall j: nat
        ensures Bit(a, j) == Bit(Pow2(k), j)
      {
        BitPow2(k, j);
      }
      BitsDetermine(a, Pow2(k));
    } else {
      BitPow2(k, k);
    }
  }

  /**
   A channel with a bit reads "on" exactly when its bit of `state.get('1', 0)`
   is set; any other label keeps its previous value.
   */
  lemma IsOnReadsOwnBit(wippe: string, s: RawState, prev: bool)
    ensures wippe == Wippe1 ==> (IsOn(wippe, s, prev) <==> Bit(Word(s), 0))
    ensures wippe == Wippe2 ==> (IsOn(wippe, s, prev) <==> Bit(Word(s), 1))
    ensures wippe != Wippe1 && wippe != Wippe2 ==> IsOn(wippe, s, prev) == prev
  {
    if BitIndex(wippe).Some? {
      MaskTest(Word(s), BitIndex(wippe).value);
    }
  }

  /** A state without the `"1"` data point reads as word 0: every channel with a bit reads off. */
  lemma MissingKeyReadsOff(wippe: string, s: RawState, prev: bool)
    requires SwitchKey !in s && BitIndex(wippe).Some?
    ensures !IsOn(wippe, s, prev)
  {
    IsOnReadsOwnBit(wippe, s, prev);
    BitSign(0, BitIndex(wippe).value);
  }

  /** Turn-on sets the channel's own bit and leaves every other bit as it was. */
  lemma OnWordBits(wippe: string, w: int, j: nat)
    ensures Bit(OnWord(wippe, w), j) == (Bit(w, j) || BitIndex(wippe) == Some(j))
  {
    if BitIndex(wippe).Some? {
      var k := BitIndex(wippe).value;
      BitOr(w, Pow2(k), j);
      BitPow2(k, j);
    }
  }

  /** Turn-off clears the channel's own bit and leaves every other bit as it was. */
  lemma OffWordBits(wippe: string, w: int, j: nat)
    ensures Bit(OffWord(wippe, w), j) == (Bit(w, j) && BitIndex(wippe) != Some(j))
  {
    if BitIndex(wippe).Some? {
      var k := BitIndex(wippe).value;
      BitAnd(w, Not(Pow2(k)), j);
      BitNot(Pow2(k), j);
      BitPow2(k, j);
    }
  }

  /** The two commands keep a non-negative word non-negative. */
  lemma ToggledNonNegative(wippe: string, w: int, on: bool)
    requires w >= 0
    ensures Toggled(wippe, w, on) >= 0
  {
    if BitIndex(wippe).Some? {
      var k := BitIndex(wippe).value;
      if on {
        OrNonNegative(w, Pow2(k));
      } else {
        AndNonNegative(w, Not(Pow2(k)));
      }
    }
  }

  /**
   Round trip: a channel reading the payload of its own command reads the
   value it was commanded to, whatever the state the command started from.
   */
  lemma PayloadRoundTrip(wippe: string, s: RawState, on: bool, prev: bool)
    requires BitIndex(wippe).Some?
    ensures IsOn(wippe, Payload(wippe, s, on), prev) == on
  {
    var k := BitIndex(wippe).value;
    var w := Toggled(wippe, Word(s), on);
    MaskTest(w, k);
    if on {
      OnWordBits(wippe, Word(s), k);
    } else {
      OffWordBits(wippe, Word(s), k);
    }
  }

  /**
   Idempotence: issuing the same command again from the state it produced
   sends the same payload.
   */
  lemma PayloadIdempotent(wippe: string, s: RawState, on: bool)
    ensures Payload(wippe, Payload(wippe, s, on), on) == Payload(wippe, s, on)
  {
    var w := Word(s);
    var w1 := Toggled(wippe, w, on);
    var w2 := Toggled(wippe, w1, on);
    forall j: nat
      ensures Bit(w2, j) == Bit(w1, j)
    {
      if on {
        OnWordBits(wippe, w, j);
        OnWordBits(wippe, w1, j);
      } else {
        OffWordBits(wippe, w, j);
        OffWordBits(wippe, w1, j);
      }
    }
    BitsDetermine(w2, w1);
  }

  /**
   Channel independence: a command on one channel never changes what a
   different channel reads from the sender's cached word.
   */
  lemma ChannelsIndependent(a: string, b: string, s: RawState, on: bool, prev: bool)
    requires a != b
    ensures IsOn(a, Payload(b, s, on), prev) == IsOn(a, s, prev)
  {
    if BitIndex(a).Some? {
      var k := BitIndex(a).value;
      var w := Word(s);
      MaskTest(w, k);
      MaskTest(Toggled(b, w, on), k);
      if on {
        OnWordBits(b, w, k);
      } else {
        OffWordBits(b, w, k);
      }
    }
  }

  /**
   The payload depends on the cached state only through its `"1"` entry:
   other data points of the cached state are never sent.
   */
  lemma PayloadIgnoresOtherKeys(wippe: string, s: RawState, t: RawState, on: bool)
    requires Word(s) == Word(t)
    ensures Payload(wippe, s, on) == Payload(wippe, t, on)
  {
  }

  /** Word 0x01 with `wippe2` turned on becomes 0x03, and `wippe1` still reads on. */
  lemma DualChannelExample(prev: bool)
    ensures Payload(Wippe2, map[SwitchKey := 0x01], true) == map[SwitchKey := 0x03]
    ensures IsOn(Wippe1, Payload(Wippe2, map[SwitchKey := 0x01], true), prev)
  {
    assert Or(0, 0) == 0;
    assert Or(1, 0) == 1;
    assert Or(0x01, 0x02) == 0x03;
    assert And(1, 0) == 0;
    assert And(0x03, 0x01) == 0x01;
  }

  /** Word 0 with `wippe1` turned on sends `{'1': 1}`. */
  lemma TurnOnFromZeroExample()
    ensures Payload(Wippe1, map[SwitchKey := 0x00], true) == map[SwitchKey := 0x01]
  {
    assert Or(0, 1) == 1;
  }
}
