/**
 The `CozyLifeSwitch` entity: its identity (unique id and display name), its
 cached state and on/off and availability flags, and the transitions that a
 state query and an on/off command make on them.

 The TCP client is not modelled: the outcome of a `query()` is a parameter
 (`QueryOutcome`), and so is whether `control()` raised. Socket
 re-initialisation is I/O; a refresh step only reports whether it asked for it.
 */
module Entity {
  import opened Channel
  import opened PyBits

  /**
   The TCP client object the entity talks through. `handle` stands for the
   Python object's identity, so two entities share one client exactly when
   their clients are equal.
   */
  datatype Client = Client(
    handle: nat,
    ip: string,
    deviceId: string,
    pid: string,
    dpid: string,
    modelName: string)

  datatype Switch = Switch(
    client: Client,
    wippe: string,
    uniqueId: string,
    name: string,
    isOn: bool,
    state: RawState,
    available: bool)

  /** What one `query()` did: returned a mapping (possibly empty), or raised. */
  datatype QueryOutcome = Answer(result: RawState) | Raised

  /** Whether one `control()` call returned or raised. */
  datatype ControlOutcome = Delivered | ControlRaised

  /** An entity after a refresh, and whether the refresh re-initialised the socket. */
  datatype RefreshStep = RefreshStep(entity: Switch, reinitSocket: bool)

  /**
   An on/off command: the payload handed to `control()`, the entity afterwards,
   and whether the command ended with the exception `control()` raised.
   */
  datatype CommandStep = CommandStep(payload: RawState, entity: Switch, failed: bool)

  /** Python's `s[-n:]` for `n > 0`: the last `n` characters, or all of `s` when shorter. */
  function LastChars(s: string, n: nat): (r: string)
    requires n > 0
    ensures |r| == if |s| < n then |s| else n
  {
    if |s| <= n then s else s[|s| - n..]
  }

  /** `LastChars(s, n)` is the suffix of `s` of that length. */
  lemma LastCharsSuffix(s: string, n: nat)
    requires n > 0
    ensures s == s[..|s| - |LastChars(s, n)|] + LastChars(s, n)
  {
  }

  /** `f"{device_id}_{wippe}"`. */
  function UniqueId(deviceId: string, wippe: string): string
  {
    deviceId + "_" + wippe
  }

  /** `f"cozylife:{device_id[-4:]}_{wippe}"`. */
  function Name(deviceId: string, wippe: string): (r: string)
    ensures |r| > 9 + |wippe|
    ensures r[..9] == "cozylife:"
    ensures r[|r| - |wippe|..] == wippe
  {
    "cozylife:" + LastChars(deviceId, 4) + "_" + wippe
  }

  /** The entity `__init__` builds: off, empty cached state, available. */
  function New(client: Client, wippe: string): (e: Switch)
    ensures e.client == client && e.wippe == wippe
    ensures e.uniqueId == UniqueId(client.deviceId, wippe)
    ensures e.name == Name(client.deviceId, wippe)
    ensures !e.isOn && e.state == map[] && e.available
  {
    Switch(client, wippe, UniqueId(client.deviceId, wippe), Name(client.deviceId, wippe),
           false, map[], true)
  }

  /** `_update_state`: re-read the on/off value from the cached state. */
  function UpdateState(e: Switch): (r: Switch)
    ensures r.(isOn := e.isOn) == e
    ensures BitIndex(e.wippe).None? ==> r == e
  {
    e.(isOn := IsOn(e.wippe, e.state, e.isOn))
  }

  /** Python truthiness of the returned mapping. */
  predicate Truthy(m: RawState)
  {
    m != map[]
  }

  /**
   `_refresh_state`: a returned mapping always replaces the cached state; a
   non-empty one also recomputes on/off and marks the entity available, an
   empty one marks it unavailable. A raised query only marks it unavailable.
   */
  function Refresh(e: Switch, q: QueryOutcome): (r: RefreshStep)
    ensures r.entity.client == e.client && r.entity.wippe == e.wippe
    ensures r.entity.uniqueId == e.uniqueId && r.entity.name == e.name
    ensures r.entity.available <==> q.Answer? && Truthy(q.result)
    ensures r.reinitSocket <==> !r.entity.available
    ensures q.Answer? ==> r.entity.state == q.result
    ensures q.Raised? ==> r.entity.state == e.state
    ensures !r.entity.available ==> r.entity.isOn == e.isOn
    ensures r.entity.available ==> r.entity.isOn == IsOn(e.wippe, q.result, e.isOn)
  {
    match q
    case Raised =>
      RefreshStep(e.(available := false), true)
    case Answer(m) =>
      var e' := e.(state := m);
      if Truthy(m) then RefreshStep(UpdateState(e').(available := true), false)
      else RefreshStep(e'.(available := false), true)
  }

  /**
   `async_update` as written: it hands the coroutine function `_refresh_state`
   to the executor, which only creates the coroutine and never runs its body,
   so the query outcome is never looked at and the entity does not change.
   */
  function AsyncUpdateAsWritten(e: Switch, q: QueryOutcome): Switch
  {
    e
  }

  /** `async_update` as evidently intended: run the refresh step. */
  function AsyncUpdate(e: Switch, q: QueryOutcome): (r: Switch)
    ensures r.available <==> q.Answer? && Truthy(q.result)
  {
    Refresh(e, q).entity
  }

  /**
   `async_turn_on` (`on`) and `async_turn_off` (`!on`): send the payload built
   from the cached state; if `control()` raises, the exception ends the
   command and the entity is unchanged, otherwise the entity is refreshed with
   the confirming query's outcome `q`.
   */
  function Command(e: Switch, on: bool, c: ControlOutcome, q: QueryOutcome): (r: CommandStep)
    ensures r.payload == Payload(e.wippe, e.state, on)
    ensures r.payload.Keys == {SwitchKey}
    ensures r.failed <==> c.ControlRaised?
    ensures c.ControlRaised? ==> r.entity == e
    ensures c.Delivered? ==> r.entity == AsyncUpdate(e, q)
    ensures r.entity.uniqueId == e.uniqueId && r.entity.wippe == e.wippe
  {
    var p := Payload(e.wippe, e.state, on);
    match c
    case ControlRaised => CommandStep(p, e, true)
    case Delivered => CommandStep(p, AsyncUpdate(e, q), false)
  }

  /** The same command with `async_update` as written. */
  function CommandAsWritten(e: Switch, on: bool, c: ControlOutcome, q: QueryOutcome): (r: CommandStep)
    ensures r.payload == Payload(e.wippe, e.state, on)
    ensures r.payload.Keys == {SwitchKey}
    ensures r.failed <==> c.ControlRaised?
    ensures r.entity == e
  {
    var p := Payload(e.wippe, e.state, on);
    match c
    case ControlRaised => CommandStep(p, e, true)
    case Delivered => CommandStep(p, AsyncUpdateAsWritten(e, q), false)
  }

  /**
   The entity's invariant: while it is available, its on/off flag is the
   projection of the cached state onto its own bit.
   */
  predicate Coherent(e: Switch)
  {
    e.available ==> e.isOn == IsOn(e.wippe, e.state, e.isOn)
  }

  /** The refresh steps for a sequence of query outcomes, in order. */
  function Run(e: Switch, qs: seq<QueryOutcome>): Switch
    decreases |qs|
  {
    if |qs| == 0 then e else Run(Refresh(e, qs[0]).entity, qs[1..])
  }

  /** A freshly built entity is coherent. */
  lemma NewCoherent(client: Client, wippe: string)
    ensures Coherent(New(client, wippe))
  {
    var e := New(client, wippe);
    IsOnReadsOwnBit(wippe, e.state, e.isOn);
  }

  /** Every refresh step keeps an entity coherent, whatever the query did. */
  lemma RefreshCoherent(e: Switch, q: QueryOutcome)
    requires Coherent(e)
    ensures Coherent(Refresh(e, q).entity)
  {
    var r := Refresh(e, q).entity;
    if r.available {
      IsOnReadsOwnBit(e.wippe, q.result, e.isOn);
      IsOnReadsOwnBit(e.wippe, q.result, r.isOn);
    }
  }

  /**
   Any run of refresh steps from a coherent entity ends coherent, available
   exactly when the last query returned a non-empty mapping, and with its
   identity unchanged.
   */
  lemma {:induction false} RunCoherent(e: Switch, qs: seq<QueryOutcome>)
    requires Coherent(e)
    ensures Coherent(Run(e, qs))
    ensures Run(e, qs).uniqueId == e.uniqueId && Run(e, qs).client == e.client
    ensures |qs| > 0 ==> (Run(e, qs).available <==> qs[|qs| - 1].Answer? && Truthy(qs[|qs| - 1].result))
    decreases |qs|
  {
    if |qs| > 0 {
      var e' := Refresh(e, qs[0]).entity;
      RefreshCoherent(e, qs[0]);
      RunCoherent(e', qs[1..]);
      if |qs| > 1 {
        assert qs[1..][|qs[1..]| - 1] == qs[|qs| - 1];
      }
    }
  }

  /**
   A delivered command whose confirming query reports the word that was sent
   leaves the entity available and reading the commanded value.
   */
  lemma CommandConfirmed(e: Switch, on: bool, extra: RawState)
    requires BitIndex(e.wippe).Some?
    ensures var p := Payload(e.wippe, e.state, on);
            var r := Command(e, on, Delivered, Answer(extra + p));
            r.entity.available && r.entity.isOn == on
  {
    var p := Payload(e.wippe, e.state, on);
    assert Word(extra + p) == Word(p);
    PayloadRoundTrip(e.wippe, e.state, on, e.isOn);
  }

  /**
   As written, `async_update` never restores availability: an entity marked
   unavailable stays so although the device now answers `{'1': 1}`, where the
   refresh step would mark it available and on.
   */
  lemma AsyncUpdateAsWrittenStaysUnavailable(client: Client)
    ensures var e := New(client, Wippe1).(available := false);
            var q := Answer(map[SwitchKey := 0x01]);
            && !AsyncUpdateAsWritten(e, q).available
            && AsyncUpdate(e, q).available
            && AsyncUpdate(e, q).isOn
  {
    var e := New(client, Wippe1).(available := false);
    var q := Answer(map[SwitchKey := 0x01]);
    assert Word(q.result) == 1;
    MaskTest(1, 0);
    assert Truthy(q.result) by {
      assert SwitchKey in q.result;
    }
  }

  /**
   As written, the confirming refresh never happens: an unavailable entity
   whose device answers the turn-on with `{'1': 1}` stays unavailable, and the
   command itself leaves it off. Its on/off can then change only through the
   event listener, which this model does not cover; availability never comes
   back, since only the refresh step sets it.
   */
  lemma CommandAsWrittenStaysUnavailable(client: Client)
    ensures var e := New(client, Wippe1).(available := false);
            var q := Answer(map[SwitchKey := 0x01]);
            var r := CommandAsWritten(e, true, Delivered, q);
            && Command(e, true, Delivered, q).entity.available
            && Command(e, true, Delivered, q).entity.isOn
            && !r.entity.available
            && !r.entity.isOn
  {
    var e := New(client, Wippe1).(available := false);
    CommandConfirmed(e, true, map[]);
    TurnOnFromZeroExample();
    assert map[] + map[SwitchKey := 0x01] == map[SwitchKey := 0x01];
  }

  /** Identifiers: the unique id determines the device id and label when labels have equal length. */
  lemma UniqueIdInjective(d1: string, w1: string, d2: string, w2: string)
    requires |w1| == |w2|
    ensures UniqueId(d1, w1) == UniqueId(d2, w2) <==> d1 == d2 && w1 == w2
  {
    var u1, u2 := UniqueId(d1, w1), UniqueId(d2, w2);
    if u1 == u2 {
      assert |d1| == |d2|;
      assert d1 == u1[..|d1|];
      assert d2 == u2[..|d2|];
      assert w1 == u1[|d1| + 1..];
      assert w2 == u2[|d2| + 1..];
    }
  }

  /** A device id of at most four characters appears whole in the name; a longer one by its last four. */
  lemma NameSuffix(deviceId: string, wippe: string)
    ensures |deviceId| <= 4 ==> Name(deviceId, wippe) == "cozylife:" + deviceId + "_" + wippe
    ensures |deviceId| > 4 ==>
      Name(deviceId, wippe) == "cozylife:" + deviceId[|deviceId| - 4..] + "_" + wippe
  {
  }

  /** Two concrete identities. */
  lemma IdentityExample()
    ensures UniqueId("a1b2c3d4", Wippe2) == "a1b2c3d4_wippe2"
    ensures Name("a1b2c3d4", Wippe2) == "cozylife:c3d4_wippe2"
    ensures Name("ab", Wippe1) == "cozylife:ab_wippe1"
  {
  }
}
