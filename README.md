# nfc2klipper tag-event synchronisation engine, in Dafny

nfc2klipper watches an NFC reader. When a tag with a spool and filament id
is presented, it tells the printer's Moonraker API which spool is loaded.
When the tag is removed, it clears the mapping, but only if the
`clear_spool` setting is on. This project models the part of the program
that decides when to publish:

- `set_spool_and_filament` keeps the last pair pushed in two function
  attributes, `old_spool` and `old_filament`. A pair equal to the cached
  one is skipped. Any other pair unsets the cache, calls Moonraker, and is
  cached only if the call returned without raising.
- `on_nfc_tag_present` follows Python truthiness: a missing field and a
  zero field are both "absent". Without the clear policy, a tag is
  forwarded only when both fields are present and nonzero. With the
  policy, every tag is forwarded, and absent fields become 0.
- `on_nfc_no_tag_present` publishes (0, 0) under the clear policy and
  does nothing otherwise.
- At startup, under the clear policy, (0, 0) is published once before the
  reader callbacks are registered.

Files:

- `wrappers.dfy`: the `Option` type and the module `MoonrakerWebClient`.
  That module holds the printer's reply to a publish; only HTTP 200
  counts as success.
- `sync_spec.dfy`: the module `SyncSpec`. It holds the engine as pure
  transitions: `Request` (what a callback asks to publish), `SyncStep`
  (the dedup/publish step), `Handle`, `Startup`, `Run` and `Process` (a
  sequence of callbacks). It also holds the engine invariant `Consistent`
  and the lemmas about these.
- `nfc2klipper.dfy`: the module `Nfc2Klipper`. Its class `SyncEngine` has
  the two cache fields updated in place and a ghost history of publisher
  calls. `SetSpoolAndFilament`, `OnNfcTagPresent`, `OnNfcNoTagPresent`,
  the constructor and `Start` are proved to produce the `SyncSpec` state
  and to keep the invariant. `Publish` is the bare call inside the try
  block: it promises no invariant of its own, and `SetSpoolAndFilament`
  calls it only with the cache unset.

The printer's answer to each publish is an input to the model (a `Reply`
per call), so success and failure are both covered. Every entry in the
ghost history records the cache as it stood at the moment of the call.
This is how "the cache is unset while the call runs" becomes a checked
property.

With clear_spool off and only one field usable, line 128 of
nfc2klipper.py logs and the condition at line 129 is false, so nothing is
published; the model does the same (`PartialRecord`).

The function attributes are created lazily on the first call
(nfc2klipper.py:69-71). Nothing reads them before that call, so the model
creates them unset in the constructor.

## Model

| member | source | states |
|---|---|---|
| `SyncSpec.OrZero` | nfc2klipper.py:130-133 | a tag field becomes 0 exactly when it is missing or zero; otherwise its value is kept |
| `SyncSpec.Request` | nfc2klipper.py:123-140 | a read tag is forwarded iff the clear policy is on or both fields are present and nonzero; the forwarded pair has absent fields as 0, and without the policy it is the tag's pair unchanged; a missing tag forwards (0, 0) iff the clear policy is on |
| `SyncSpec.SyncStep` | nfc2klipper.py:73-92 | a pair equal to the cached one makes no call and changes nothing; any other pair makes exactly one call, with the cache unset at that moment; afterwards the pair is cached iff the call succeeded, and the cache is unset after a failure |
| `SyncSpec.Handle` | nfc2klipper.py:123-140 | a reader callback makes at most one call, exactly when it forwards a pair that is not cached; that call passes the forwarded pair to the publisher with the cache unset; a callback that makes no call changes nothing |
| `SyncSpec.Process` | nfc2klipper.py:143-149 | callbacks are handled only after the startup sequence: under the clear policy the first call of every process is the (0, 0) clear, made with the cache unset; without it, every call comes from a callback |
| `SyncSpec.Startup` | nfc2klipper.py:145-146 | under the clear policy exactly one (0, 0) publish is made, with the cache unset, so it is never deduplicated; without the policy, none |
| `SyncSpec.SyncStepPreserves` | nfc2klipper.py:73-92 | one publish step keeps the engine invariant: the cache names the last call's pair iff that call succeeded, every call was made with the cache unset, and a pair is repeated in consecutive calls only after a failure |
| `SyncSpec.HandlePreserves` | nfc2klipper.py:123-140 | handling either reader callback keeps the engine invariant |
| `SyncSpec.RunPreserves` | nfc2klipper.py:66-140 | any sequence of callbacks, delivered serially, keeps the engine invariant |
| `SyncSpec.ProcessKeepsInvariant` | nfc2klipper.py:66-149 | over a whole process (startup clear, then any callbacks) the publisher is called with the same pair twice in a row only if the first call failed, every call is made with the cache unset, and the cache holds the last call's pair if that call succeeded and is unset otherwise |
| `SyncSpec.SilentRunKeepsCache` | nfc2klipper.py:82-92 | the cache changes only when a publish is attempted: a run of callbacks that makes no call leaves it as it was |
| `SyncSpec.RetryAfterFailure` | nfc2klipper.py:82-89 | after a failed publish of a pair, the identical next request publishes again instead of being deduplicated |
| `SyncSpec.DedupAfterSuccess` | nfc2klipper.py:73-78 | after a successful publish of a pair, the identical next request makes no call and changes nothing |
| `SyncSpec.NoTagPresentRule` | nfc2klipper.py:137-140 | tag removal changes nothing without the clear policy; with it, it runs the publish step on (0, 0); it makes a call iff the policy is on and (0, 0) is not cached |
| `SyncSpec.TagPresentRule` | nfc2klipper.py:126-134 | without the clear policy, a tag with a missing or zero field changes nothing; otherwise the publish step runs on the pair with absent fields as 0 |
| `SyncSpec.PartialRecord` | nfc2klipper.py:126-134 | a tag with spool 5 and no filament is ignored without the clear policy, and publishes (5, 0) with it |
| `SyncSpec.Scenario` | nfc2klipper.py:123-140 | tag (2, 9) published; read again, deduplicated; removed without the policy, no call; removed with it, (0, 0) published; read again, (2, 9) published again |
| `Nfc2Klipper.SyncEngine.constructor` | nfc2klipper.py:69-71 | the engine starts with both cache attributes unset and no calls made, which satisfies the invariant |
| `Nfc2Klipper.SyncEngine.Publish` | lib/moonraker_web_client.py:26-30 | the call to Moonraker succeeds iff the reply is HTTP 200; it is recorded in the history with the cache as it stood when the call was made; the cache itself is not touched |
| `Nfc2Klipper.SyncEngine.SetSpoolAndFilament` | nfc2klipper.py:66-92 | performs `SyncStep` on the engine's state and keeps the invariant: a duplicate makes no call and leaves both attributes unchanged; otherwise exactly one call is made with the attributes unset, and afterwards they hold the pair on success and are unset on failure; no failure reaches the caller |
| `Nfc2Klipper.SyncEngine.OnNfcTagPresent` | nfc2klipper.py:123-134 | performs `Handle` for a read tag and keeps the invariant; without the clear policy, an incomplete record changes nothing |
| `Nfc2Klipper.SyncEngine.OnNfcNoTagPresent` | nfc2klipper.py:137-140 | performs `Handle` for tag removal and keeps the invariant; without the clear policy it changes nothing |
| `Nfc2Klipper.Start` | nfc2klipper.py:143-146 | a fresh engine in the `Startup` state: under the clear policy its history is exactly one (0, 0) call made with the cache unset; otherwise it is empty |

## Left out

- Configuration discovery, TOML loading, the copy of a default file and `sys.exit` (nfc2klipper.py:33-60): file-system bootstrapping. `should_clear_spool` (nfc2klipper.py:116-120) becomes the constant `clearSpool`. The truthiness of an arbitrary TOML value is reduced to a boolean.
- The Flask routes `write_tag` and `index` (nfc2klipper.py:95-113). They call the NFC handler and the Spoolman client, and never touch the cache.
- Threading, starting the web server, and the stop/join when it fails (nfc2klipper.py:151-167). Callbacks are assumed to arrive one at a time, as they do from the single reader thread.
- The NFC handler and the Spoolman client: lib/nfc_handler.py and lib/spoolman_client.py are not part of this model. A tag field is modelled as an optional natural number.
- The text of the Moonraker command (lib/moonraker_web_client.py:20-24). It is a string with the gate and the spool id; the filament id is not sent at all. The gate is always 0. The history records the pair the engine passed in.
- The network request itself. Its outcome is an input: an HTTP status, or no reply for a connection error or the 10-second timeout.
- Logging calls, which have no effect on state.
