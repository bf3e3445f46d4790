# CozyLife switch entity — a Dafny model

This project models the per-channel logic of the CozyLife Home Assistant
switch platform (`custom_components/cozylife/switch.py`). A CozyLife device
reports its state as a mapping from data-point id to integer. Data point `"1"`
is a bit field with one bit per gang ("wippe"): `wippe1` owns bit `0x01` and
`wippe2` owns bit `0x02`. The platform builds one `CozyLifeSwitch` entity per
channel. Each entity:

- reads its on/off value from its cached state (`_update_state`);
- turns its channel on or off by a read-modify-write of the cached word, then
  sends `{'1': word}` to the device (`async_turn_on`, `async_turn_off`);
- decides availability and on/off from one state query (`_refresh_state`);
- carries a unique id and a display name built from the device id.

Files and modules:

- `py_bits.dfy` (`PyBits`): Python's unbounded integers as infinite
  two's-complement bit strings. It defines `~`, `&` and `|` and proves their
  bit-by-bit meaning, plus the fact that a word is determined by its bits.
  Negative words are modelled too, not excluded.
- `channel.dfy` (`Channel`): the state mapping, channel labels and masks,
  decoding, the turn-on/turn-off words and the control payload, with the
  round-trip, idempotence and independence lemmas.
- `entity.dfy` (`Entity`): the entity record, its identity strings, the
  refresh step, `async_update` and the on/off commands. It also defines the
  entity's coherence invariant: while the entity is available, its on/off
  flag is the projection of its cached state.
- `platform.dfy` (`Platform`): the entity list that `async_setup_platform`
  builds from the `switches` and `switches2` configuration lists.
- `wrappers.dfy` (`Wrappers`): `Option`.

The TCP client is a parameter, not a model. A `query()` is an outcome
`Answer(mapping) | Raised`; an empty mapping is Python-falsy. A `control()` is
`Delivered | ControlRaised`. Socket re-initialisation is reported as a flag of
the refresh step.

`switch.py` has no per-device poll loop and no command serializer. Each
entity queries and commands through its own calls, and sibling entities keep
separate cached states. The model follows this.

## Model

| member | source | states |
|---|---|---|
| `Channel.MaskConstants` | custom_components/cozylife/switch.py:120-123 | `wippe1` owns bit 0 (mask 0x01) and `wippe2` owns bit 1 (mask 0x02) |
| `Channel.MaskTest` | custom_components/cozylife/switch.py:121-123 | `(w & mask) == mask` holds exactly when the mask's single bit is set in `w`, for every integer `w`, negative ones included |
| `Channel.MissingKeyReadsOff` | custom_components/cozylife/switch.py:120-123 | a state without key `'1'` is read as word 0, so every channel with a bit reads off |
| `Channel.IsOnReadsOwnBit` | custom_components/cozylife/switch.py:118-123 | `wippe1` reads on exactly when bit 0x01 of `state.get('1', 0)` is set, and `wippe2` exactly when bit 0x02 is set; any other label keeps its previous value |
| `Entity.UpdateState` | custom_components/cozylife/switch.py:118-123 | `_update_state` changes nothing but the on/off flag, and for a label without a bit it changes nothing at all |
| `Channel.OnWordBits` | custom_components/cozylife/switch.py:166-172 | turn-on's word, `w` or-ed with the mask, has the channel's bit set and every other bit as in `w` |
| `Channel.OffWordBits` | custom_components/cozylife/switch.py:176-182 | turn-off's word `w & ~mask` has the channel's bit clear and every other bit as in `w` |
| `Channel.ToggledNonNegative` | custom_components/cozylife/switch.py:168-172 | both commands keep a non-negative word non-negative |
| `Channel.Payload` | custom_components/cozylife/switch.py:173 | the control payload has exactly one key, `"1"`, whose value is the toggled word of the cached `"1"` entry |
| `Channel.PayloadIgnoresOtherKeys` | custom_components/cozylife/switch.py:168-173 | the payload depends on the cached state only through its `"1"` entry, so other cached data points are never sent |
| `Channel.PayloadRoundTrip` | custom_components/cozylife/switch.py:120-123 | a channel reading its own command's payload reads the commanded value (on after turn-on, off after turn-off), from any starting state |
| `Channel.PayloadIdempotent` | custom_components/cozylife/switch.py:166-183 | repeating a command from the state it produced sends the same payload again, for turn-on and turn-off alike |
| `Channel.ChannelsIndependent` | custom_components/cozylife/switch.py:166-183 | a command on one channel never changes what a different channel reads from the sender's cached word |
| `Channel.DualChannelExample` | custom_components/cozylife/switch.py:170-173 | word 0x01 with `wippe2` turned on sends `{'1': 0x03}`, and `wippe1` still reads on |
| `Channel.TurnOnFromZeroExample` | custom_components/cozylife/switch.py:168-173 | word 0 with `wippe1` turned on sends `{'1': 0x01}` |
| `Entity.LastChars` | custom_components/cozylife/switch.py:71 | Python's `s[-n:]` has length `min(n, len(s))` |
| `Entity.LastCharsSuffix` | custom_components/cozylife/switch.py:71 | Python's `s[-n:]` is the suffix of `s` of that length |
| `Entity.Name` | custom_components/cozylife/switch.py:71 | the display name starts with `cozylife:` and ends with the label |
| `Entity.NameSuffix` | custom_components/cozylife/switch.py:71 | a device id of at most four characters appears whole in the name, a longer one by its last four characters |
| `Entity.UniqueIdInjective` | custom_components/cozylife/switch.py:70 | for labels of equal length, `f"{did}_{wippe}"` determines both the device id and the label |
| `Entity.IdentityExample` | custom_components/cozylife/switch.py:70-71 | `a1b2c3d4` with `wippe2` gives id `a1b2c3d4_wippe2` and name `cozylife:c3d4_wippe2`; `ab` gives name `cozylife:ab_wippe1` |
| `Entity.New` | custom_components/cozylife/switch.py:66-75 | a new entity has its client, label, unique id and name, is off, has an empty cached state and is available |
| `Entity.NewCoherent` | custom_components/cozylife/switch.py:73-75 | a new entity satisfies the coherence invariant |
| `Entity.Refresh` | custom_components/cozylife/switch.py:129-143 | a returned mapping always replaces the cached state. The entity is available exactly when the query returned a non-empty mapping, and then on/off is re-read from it. Otherwise on/off is kept and the socket is re-initialised. A raised query keeps the cached state. Identity never changes |
| `Entity.RefreshCoherent` | custom_components/cozylife/switch.py:129-143 | every refresh step keeps the coherence invariant, whatever the query did |
| `Entity.RunCoherent` | custom_components/cozylife/switch.py:129-143 | after any sequence of refresh steps the entity is coherent with unchanged identity, and it is available exactly when the last query returned a non-empty mapping |
| `Entity.AsyncUpdate` | custom_components/cozylife/switch.py:125-143 | the corrected update runs the refresh step: the entity ends available exactly when the query returned a non-empty mapping |
| `Entity.AsyncUpdateAsWrittenStaysUnavailable` | custom_components/cozylife/switch.py:125-127 | as written, an unavailable entity stays unavailable after an update although the device answers `{'1': 1}`; the corrected update makes it available and on |
| `Entity.Command` | custom_components/cozylife/switch.py:166-184 | a command always sends the channel's payload built from the cached state, with the single key `"1"`. It fails exactly when `control()` raised, and then the entity is unchanged. Otherwise the entity is the result of the update with the confirming query. Identity is kept |
| `Entity.CommandAsWritten` | custom_components/cozylife/switch.py:166-184 | the same command with `async_update` as written: same payload, failing exactly when `control()` raised, and the entity never changes, whatever `control()` and the query did |
| `Entity.CommandConfirmed` | custom_components/cozylife/switch.py:166-184 | a delivered command whose confirming query reports the sent word leaves the entity available and reading the commanded value |
| `Entity.CommandAsWrittenStaysUnavailable` | custom_components/cozylife/switch.py:166-174 | as written, an unavailable entity turned on stays unavailable although the device confirms `{'1': 1}`, and the command leaves it off; afterwards its on/off changes only through the event listener (lines 102-116), which is not modelled, and nothing sets it available again |
| `Platform.AbsentListsAreEmpty` | custom_components/cozylife/switch.py:34-42 | `config.get(key) or []`: an absent `switches` or `switches2` list builds the same entities as an empty one, for every configuration |
| `Platform.Singles` | custom_components/cozylife/switch.py:33-40 | the `switches` loop gives, for entry `i`, one `wippe1` entity on its own client, at position `i` |
| `Platform.PairsAt` | custom_components/cozylife/switch.py:42-49 | the `switches2` loop gives, for entry `j`, a `wippe1` entity at `2j` and a `wippe2` entity at `2j+1` on one shared client |
| `Platform.Build` | custom_components/cozylife/switch.py:33-49 | the list has `len(switches) + 2 * len(switches2)` entities |
| `Platform.BuildLayout` | custom_components/cozylife/switch.py:33-49 | every entity `i` is the one `__init__` builds for its configuration entry, that entry's client and its label |
| `Platform.Setup` | custom_components/cozylife/switch.py:33-51 | the list has `len(switches) + 2 * len(switches2)` entities, with absent lists read as empty, and every entity starts available, off and with an empty state |
| `Platform.ClientsShared` | custom_components/cozylife/switch.py:42-49 | two entities share a client exactly when they come from the same configuration entry; each `switches2` entry's `wippe1` entity is followed by its `wippe2` entity on the same client |
| `Platform.UniqueIdsDistinct` | custom_components/cozylife/switch.py:33-49 | the unique ids of the list are pairwise distinct exactly when the device ids of all entries of both lists are |
| `Platform.SetupExample` | custom_components/cozylife/switch.py:33-49 | one `switches` entry and one `switches2` entry give three entities, the last two on one client; an absent `switches` list acts as an empty one |

## Left out

- The TCP client (`query`, `control`, `_initSocket`, `device_id`) is not part of this model. Its results are parameters. `device_id` is taken to be the `did` of the configuration entry.
- A `query()` that returns `None` is not modelled. The cached state would then stop being a mapping, and the client that could return it is not part of this model. A falsy result is modelled as the empty mapping.
- A configuration entry without `did` or another key is not modelled. What `device_id` then returns is up to the TCP client.
- Scheduling (lines 53-62) is left out: socket initialisation at setup, `async_track_time_interval`, `SCAN_INTERVAL` and the sleeps. It is concurrency and time.
- The event listener (lines 87-116) is left out: `start_event_listener`, `stop_event_listener` and the endless `_listen_for_events` loop. It is a concurrent task. Note that it updates `_state` and on/off, but never sets `available` back to true.
- Home Assistant's entity framework is left out: `SwitchEntity`, `async_write_ha_state`, `async_add_executor_job` as a thread pool, `async_on_remove`, `async_added_to_hass` and the property getters (lines 146-164, which return the modelled fields).
- Logging and `_reconnect_delay` are left out: they carry no behaviour.
- Races between sibling entities are left out. Each entity holds its own cached state, and the code has no lock to model.
- Entity.Refresh: `await self._tcp_client._initSocket()` (lines 139 and 143) is modelled only as a flag saying that the socket is re-initialised. Line 54 runs `_initSocket` through `async_add_executor_job`, which suggests a plain function. If it is one, the `await` at line 139 awaits `None` and raises `TypeError`. The `except` at line 140 then re-initialises again, and the second `await` at line 143 raises out of `_refresh_state`. If it is a coroutine function instead, line 54 has the same never-awaited defect as line 127. Which one holds is decided by the TCP client, which is not part of this model. In either case the flags set before the `await` (`_state`, `_available`) are the ones modelled.
- Entity.CommandAsWritten: models the executor in asyncio's default mode, where handing it a coroutine function only creates the coroutine. In debug mode `run_in_executor` raises `TypeError` for a coroutine function, so the as-written command would raise after a delivered `control()`; the model reports it as not failed.

## Findings

| source | as written | input that shows it | evidently intended | confidence | as-written member | corrected member |
|---|---|---|---|---|---|---|
| custom_components/cozylife/switch.py:125-127 | `async_update` passes the coroutine function `_refresh_state` to `async_add_executor_job`. The executor calls it, which only creates a coroutine that is never awaited. So the refresh step never runs, from the periodic update or from the confirmation after a command | an entity marked unavailable whose device now answers `{'1': 1}`: after `async_update` it is still unavailable; after a turn-on it is still unavailable, and the command leaves it off (only the unmodelled event listener at lines 106-109 may later re-read on/off; no code path but the refresh step sets it available). In asyncio debug mode `run_in_executor` rejects a coroutine function with `TypeError`, so there the as-written command raises after a delivered `control()`, while `Entity.CommandAsWritten` reports it as not failed | run (await) `_refresh_state` so that availability and on/off follow the query | medium; not executed | `Entity.AsyncUpdateAsWritten`, shown by `Entity.AsyncUpdateAsWrittenStaysUnavailable` and `Entity.CommandAsWrittenStaysUnavailable` | `Entity.AsyncUpdate`, used by `Entity.Command`, with `Entity.RunCoherent` and `Entity.CommandConfirmed` |
