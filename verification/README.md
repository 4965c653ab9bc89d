# Ring doorbell skill — a Dafny model

This project models the decision logic of a voice-assistant skill that talks
to Ring doorbells. The skill authenticates to the vendor cloud, rebuilds a
registry of the account's devices, and polls for doorbell, motion and
on-demand alerts, which it announces by dialog (and, for a doorbell press, a
sound played first).

The vendor SDK and the host runtime are not modelled. What the SDK answers
is a parameter: whether a client call completes, raises `MissingTokenError`
or raises something else, the device lists, the alert list, and whether the
sound plays. Everything the skill does through them is returned as a trace of
`Host.Effect` values: client construction, token exchange, vendor refreshes,
dialogs, sounds, prompts. Python truthiness of settings is `Host.Truthy`.
Python `None` is `Wrappers.Option`. The insertion-ordered device dictionary
is `DeviceRegistry.Registry`, a sequence of entries with distinct names.

Modules, following the source files:

- `Config` (`__init__.py` `_setup`): reads the configuration from the settings.
- `Authenticator` (`utils.py` `authenticate`): the cached-token, password,
  password-plus-code and no-attempt paths, with `ChoosePath` as the decision table.
- `DeviceRegistry`: the dictionary semantics used by discovery (assignment
  keeps a key's position; later assignments win).
- `Discovery` (`utils.py` `discovery`, `check_device`, the lookup part of
  `device_info`).
- `Alerts` (`__init__.py` `_get_alerts`): one poll as a method with a loop.
- `Intents` (`__init__.py` `_handle_device_discovery`).

Behaviour of the code that is easy to misread:

- When the cache file exists but the cached token is rejected with a
  missing-token error, `authenticate` returns `None`. It does not fall back
  to the password path.
- The poller also stops at an alert whose `kind` field is missing. Reading
  that field raises inside the guarded block, so the poll ends there.
- The "no devices" dialog depends on the rebuilt registry being empty, not on
  the vendor returning zero devices. An unreadable first device also leaves
  it empty.
- When there is no session (`authenticate` returned `None`), `discovery`
  raises if the cache file exists. So does `_get_alerts` if the registry is
  non-empty. Both are `Uncaught`.

## Model

| member | source | states |
|---|---|---|
| Config.Setup | __init__.py:23-34 | each of the seven plain fields holds exactly `settings.get(key)` for its key (`None` when the key is absent, the stored value otherwise); the ding sound is the stored value when present and `doorbell_1.mp3` only when the setting is absent |
| Config.SetupReadsOnlySkillKeys | __init__.py:27-34 | the configuration depends only on the eight skill keys, so a settings change re-read gives the same configuration when those keys agree |
| DeviceRegistry.Put | utils.py:103 | dictionary assignment: the key is present with the new family afterwards, every other key keeps its family, an existing key keeps its position and a new one is appended, and names stay distinct |
| DeviceRegistry.SizeIsKeyCount | __init__.py:43 | in a registry with distinct names, the number of keys equals the number of entries, i.e. `len(self.devices)` |
| DeviceRegistry.LastFamily | utils.py:102-103 | reference meaning of "later assignments win": some entry is found for a name exactly when the name occurs, and it is an entry with no later entry of that name |
| DeviceRegistry.LastFamilyOfLastNamed | utils.py:102-103 | for every entry with no later entry of the same name, the reference lookup gives that entry's family |
| DeviceRegistry.Merge | utils.py:102-103 | assigning entries in order into a dictionary gives the union of keys; a key assigned gets its last family, and the others keep their old family |
| DeviceRegistry.FirstOccurrences | utils.py:102-103 | reference key order of a dictionary filled by assignments: each name once, in the order of its first occurrence, starting with the first name |
| DeviceRegistry.MergeKeepsInsertionOrder | utils.py:102-103 | after merging, the keys are in first-insertion order: the old keys in place, then each new name where it first occurs |
| DeviceRegistry.Build | utils.py:99-103 | a registry rebuilt from empty has exactly the assigned names as keys, no duplicates, in first-insertion order (so the first entry's name is the first key), and each key maps to the family of the last entry with that name |
| Authenticator.Exchange | utils.py:57-75 | a token exchange is one client construction without a token followed by one `fetch_token`; it grants a session exactly when the exchange completes, a missing-token error yields no session, and any other error propagates |
| Authenticator.Authenticate | utils.py:34-77 | a cache file means no `fetch_token`. A cached session is granted exactly when the cached client completes. Without both credentials, no client call and `None`. With 2FA off, one fetch with username and password. With 2FA on and no code, no fetch and no session. With a code, one fetch carrying it. A missing-token error never propagates and yields `None`. Any other error from the cached client, the client construction or the fetch propagates. With both credentials the client is always built first, and each password path's trace is exact. |
| Authenticator.AuthenticateFollowsDecisionTable | utils.py:43-75 | against the decision table: a session is granted exactly when every client call on the chosen path completes, a fetch happens exactly on a password path once the client is built, and the session records the path |
| Discovery.Loaded | utils.py:101-105 | the loop keeps, in order, the devices read before the first device whose attributes raise, and stops there |
| Discovery.Discover | utils.py:89-112 | Without the cache file nothing happens and the registry is unchanged. With the cache file but no session, the first vendor call raises (`Uncaught`) and the registry is unchanged. Otherwise the registry is rebuilt from scratch with exactly the loaded names, in first-discovery order, each mapped to its last family. The trace is the two vendor calls, followed by the `error.discovery` dialog exactly when the result is empty. |
| Discovery.DiscoveryReplacesRegistry | utils.py:98-103 | the rebuilt registry does not depend on the registry before discovery (no stale entry survives) |
| Discovery.DiscoveredKeysAreDeviceNames | utils.py:93-103 | when all devices are readable, a name is a key of the rebuilt registry exactly when some device in doorbots ++ chimes ++ stickup_cams carries it |
| Discovery.DiscoveredFamilyIsLastDevice | utils.py:102-103 | when all devices are readable, a device with no later device of the same name gives its family to that name in the rebuilt registry |
| Discovery.ScanAsWritten | utils.py:125-127 | the loop as written returns a key exactly when the requested name is in the registry, and the key it returns is the one at the loop's current position |
| Discovery.CheckDeviceAsWritten | utils.py:124-134 | as written: a key is returned exactly when the name is a key, but it is the first key; otherwise one `error.device` dialog carries the name and the result is `None` |
| Discovery.CheckDeviceAsWrittenNamesAnotherDevice | utils.py:125-127 | asked for "Garage" in {"Front Door", "Garage"}, the check as written answers "Front Door" |
| Discovery.DiscoveryThenCheckAsWrittenNamesAnotherDevice | utils.py:93-127 | after discovering a "Front Door" doorbot and a "Garage" stickup cam, the check as written, asked for "Garage", answers "Front Door" |
| Discovery.ScanFor | utils.py:125-127 | a loop comparing each key with the name finds it exactly when it is a key and returns the name itself |
| Discovery.CheckDevice | utils.py:124-134 | corrected check: the requested name is returned exactly when it is a key; otherwise one `error.device` dialog carries the name and the result is `None` |
| Discovery.CheckDeviceAsWrittenAgreesOnlyOnFirstKey | utils.py:124-134 | the check as written and the corrected one agree exactly when the name is not a key or is the first key |
| Discovery.DeviceInfoAsWritten | utils.py:144-151 | as written: for a known name the device read is the registry's first device with its family, unless that first key is empty, which ends silently; an unknown name ends with the `error.device` dialog only |
| Discovery.DeviceInfoAsWrittenReadsAnotherDevice | utils.py:145-151 | asked for "Garage" in {"Front Door", "Garage"}, `device_info` as written reads the "Front Door" doorbot |
| Discovery.DeviceInfo | utils.py:144-151 | corrected lookup: the device read is the requested one with its registered family exactly when it is a non-empty key; an unknown name ends with the `error.device` dialog only; an empty name ends silently |
| Discovery.DeviceInfoAsWrittenAgreesOnlyOnFirstKey | utils.py:144-151 | the lookup as written and the corrected one agree exactly when the name is unknown or is the first key |
| Alerts.GetAlerts | __init__.py:91-121 | With no devices, no vendor call and no output. Otherwise the poll handles the first alert, in list order, that is recognised and enabled or has no kind, and every earlier alert is skipped. No such alert means the trace holds only the vendor calls (refresh and alert list). A ding plays its sound to completion before `ring.ding`. Each dialog carries the alert's `doorbot_description`. A caught exception ends the poll with nothing after it. At most one dialog and one sound per poll. |
| Intents.ReadOut | __init__.py:46-47 | one spoken line per device, in registry order, each the lower-cased device name |
| Intents.HandleDeviceDiscovery | __init__.py:41-47 | `ring.discovery` is spoken once, with `total` equal to the number of devices, exactly when the registry is non-empty. The user is then asked whether to list them, and only on "yes" is every name read out. |

## Findings

| source | as written | input that shows it | evidently intended | confidence | as-written member | corrected member |
|---|---|---|---|---|---|---|
| utils.py:125-127 | `check_device` returns the key at the loop's position as soon as the requested name is anywhere in the registry, i.e. always the first key | registry {"Front Door": doorbots, "Garage": stickup_cams}, requested "Garage": the result is "Front Door", so `device_info` reads out the wrong device | return the requested name when it is a key | high (not executed) | Discovery.CheckDeviceAsWritten | Discovery.CheckDevice |
| utils.py:145-151 | `device_info` looks up the key `check_device` returned, so for a known name it reads the first device in the registry | after discovering "Front Door" (doorbot) then "Garage" (stickup cam), asking for "Garage" makes `device_info` read the "Front Door" device | read the requested device | high (not executed) | Discovery.DeviceInfoAsWritten | Discovery.DeviceInfo |

`Discovery.DeviceInfoAsWritten` models `device_info` as written, on top of `Discovery.CheckDeviceAsWritten`. `Discovery.DeviceInfo` is the same lookup on top of the corrected check. `Discovery.DiscoveryThenCheckAsWrittenNamesAnotherDevice` shows that a real discovery produces the registry of the counterexample.

## Left out

- Token cache writing (`_token_cache_update`, utils.py:15-31) is an opaque callback of the vendor client. Directory creation, the file write and its error value are not modelled. The token exchange's side effect of creating the cache file is therefore not in the trace.
- Vendor SDK internals (`Auth`, `Ring`, `update_data`, `devices`, `update_dings`, `active_alerts`) are inputs. Exceptions from `update_data`, `devices()` and `update_dings` are not modelled. Neither are malformed device dictionaries or a device family that names no device list.
- `device_info`'s readout dialog (utils.py:152-157) reads attributes of SDK device objects and is not modelled. The model stops at which device and family are read. Its outer exception handler is not modelled either.
- Host plumbing is not modelled: `initialize`, `on_settings_changed`, `schedule_repeating_event`, the 5-second interval, `create_skill`, and logging. The constants in constants.py (paths, user agent) are not modelled either.
- The ding sound path is `join(dirname(__file__), 'assets', ding_sound)`. The trace carries the file name only. A non-text `ding_sound` setting makes `join` raise before any vendor call, and this is modelled as `Uncaught`.
- Intents.Lower: lower-cases ASCII letters only, because Python's full Unicode case mapping is not modelled.
- Settings values are text or booleans. Other JSON types (numbers, null) are not modelled.
- The skill's initial `self.devices = []` is modelled as the empty registry. An empty list and an empty dictionary behave the same in every modelled use.
