# SweetAlert notifier, modelled in Dafny

This project models the alert notifier of a small Laravel helper library.
The library composes a "flash alert": a popup dialog that the next page
shows after a redirect. Application code gets a `SweetAlertNotifier`.
A chain of fluent calls (`message`, `success`, `autoclose`, `confirmButton`,
`persistent`, `setConfig`, ...) fills the notifier's option array `config`.
When the notifier is destroyed, it writes that array into the session under
the `sweet_alert` namespace. The global `alert(message, title)` helper is a
conditional front end to `message`.

Files:

- `Wrappers.dfy`: `Option`, which stands for PHP `null` in optional arguments.
- `PhpArray.dfy`: a PHP array with string keys, as an ordered sequence of
  key/value pairs. It covers element assignment (`Set`: an existing key keeps
  its position, a new key goes last), `unset` (`Unset`) and `array_merge`
  (`Merge`), with lemmas about reading after each of them.
- `Session.dfy`: the session store, which the host framework provides. It is
  a class that logs the `remove`/`flash` calls it receives. Beside it is a
  flat key/value view of the store that replays a log (`Replay`). In that
  view, `remove(p)` drops `p` and every dotted key under `p`.
- `SweetAlert.dfy`: the notifier. Each operation's effect on the
  configuration is a function on dictionaries (`MessageEffect`,
  `AutocloseEffect`, `CancelButtonEffect`, `ConfirmButtonEffect`,
  `RemoveTimerEffect`, ...), and lemmas state what the operation sets, keeps
  and deletes. The class `SweetAlertNotifier` updates its `config` field step
  by step, as the original does. Each method is proved to produce exactly the
  effect its function describes. `FlashLog` is the exact sequence of session
  calls made by `flashConfig`. `FlashLogReadBack` states what the session
  holds afterwards.
- `AlertHelper.dfy`: the `alert()` helper, which takes the notifier as a
  parameter.

The model follows the code as written, including where it differs from
what it evidently intends:

- `cancelButton` and `confirmButton` never store the colour or the aria
  label. Each assignment stands behind `isset(...) ?? <assignment>`. The
  `isset` guard shows the intent: set the option only when the argument is
  given. But PHP parses the line as `isset(...) ?? (<assignment>)`, and
  `isset` yields a boolean and never null, so the assignment is never
  evaluated and the option is never set. The model ignores both arguments,
  states this in `CancelButtonSpec` and `ConfirmButtonSpec`, and marks it as
  a probable defect in a comment on the methods.
- The constructor always stores `timer`, even when the autoclose default is
  null: no branch skips a null default. So `timer` is flashed, as null, even
  when no default is configured. The worked example in `SavedFlashLog` shows
  this.
- An option named `alert` set through `setConfig` is flashed under
  `sweet_alert.alert`. The JSON text, which is flashed last, then overwrites
  it. `FlashLogReadBack` excludes that one key for this reason.

## Model

| member | source | states |
|---|---|---|
| `PhpArray.SetKeys` | src/SweetAlert/SweetAlertNotifier.php:62-70 | assigning an existing key keeps the key order; a new key is appended last |
| `PhpArray.SetDistinct` | src/SweetAlert/SweetAlertNotifier.php:62-70 | an assignment keeps the keys distinct |
| `PhpArray.SetGet` | src/SweetAlert/SweetAlertNotifier.php:62 | after an assignment, the assigned key reads the new value and every other key reads what it did before |
| `PhpArray.UnsetGet` | src/SweetAlert/SweetAlertNotifier.php:247 | after `unset`, the key is absent and every other key reads what it did before |
| `PhpArray.UnsetKeys` | src/SweetAlert/SweetAlertNotifier.php:247 | after `unset`, the key list is the old one with that key dropped and the other keys in their relative order |
| `PhpArray.Merge` | src/SweetAlert/SweetAlertNotifier.php:300 | the old keys of `array_merge`'s first array keep their positions at the front; keys stay distinct |
| `PhpArray.MergeKeys` | src/SweetAlert/SweetAlertNotifier.php:300 | the keys after `array_merge($d, $p)` are those of `$d`, in place, followed by the keys of `$p` that `$d` lacks, in `$p`'s order |
| `PhpArray.MergeDisjoint` | src/SweetAlert/SweetAlertNotifier.php:300 | merging an array whose keys are all new appends its entries unchanged and in order |
| `PhpArray.MergeGet` | src/SweetAlert/SweetAlertNotifier.php:298-303 | `setConfig(p)`: keys of `p` take `p`'s value (last write wins), all other keys keep theirs |
| `SweetAlert.DefaultConfigIsTimerOnly` | src/SweetAlert/SweetAlertNotifier.php:42-47 | the default configuration is exactly one entry, `timer`, bound to the autoclose default, null included |
| `SweetAlert.SweetAlertNotifier.constructor` | src/SweetAlert/SweetAlertNotifier.php:30-35 | a new notifier holds the given session and `config == [timer => default]` |
| `SweetAlert.SweetAlertNotifier.SetDefaultConfig` | src/SweetAlert/SweetAlertNotifier.php:42-47 | merges `[timer => default]` into the configuration |
| `SweetAlert.MessageEffect` | src/SweetAlert/SweetAlertNotifier.php:60-73 | `message` keeps option keys distinct |
| `SweetAlert.MessageSpec` | src/SweetAlert/SweetAlertNotifier.php:60-73 | `text` is always set; `title`/`type` are set only when non-null and kept otherwise; every other option keeps its value; existing options keep their positions |
| `SweetAlert.MessageWithoutArguments` | src/SweetAlert/SweetAlertNotifier.php:60-73 | `message()` resets `text` to '' and keeps `title` and `type` |
| `SweetAlert.SweetAlertNotifier.Message` | src/SweetAlert/SweetAlertNotifier.php:60-73 | the new configuration is `MessageEffect` of the old one |
| `SweetAlert.TypedMessage` | src/SweetAlert/SweetAlertNotifier.php:98-148 | with an icon and a title that defaults to '', `type` and `title` are both overwritten |
| `SweetAlert.BasicKeepsType` | src/SweetAlert/SweetAlertNotifier.php:83-88 | `basic` never touches `type` |
| `SweetAlert.SweetAlertNotifier.Basic` | src/SweetAlert/SweetAlertNotifier.php:83-88 | the effect of `message(text, title)` with no icon |
| `SweetAlert.SweetAlertNotifier.Info` | src/SweetAlert/SweetAlertNotifier.php:98-103 | the effect of `message(text, title, 'info')`, with title defaulting to '' |
| `SweetAlert.SweetAlertNotifier.Success` | src/SweetAlert/SweetAlertNotifier.php:113-118 | the effect of `message(text, title, 'success')`, with title defaulting to '' |
| `SweetAlert.SweetAlertNotifier.Error` | src/SweetAlert/SweetAlertNotifier.php:128-133 | the effect of `message(text, title, 'error')`, with title defaulting to '' |
| `SweetAlert.SweetAlertNotifier.Warning` | src/SweetAlert/SweetAlertNotifier.php:143-148 | the effect of `message(text, title, 'warning')`, with title defaulting to '' |
| `SweetAlert.AutocloseEffect` | src/SweetAlert/SweetAlertNotifier.php:158-165 | `autoclose` keeps option keys distinct |
| `SweetAlert.AutocloseSpec` | src/SweetAlert/SweetAlertNotifier.php:158-165 | with null it changes nothing, an existing `timer` included; with `ms` it sets `timer = ms` and `timerProgressBar = p` and nothing else |
| `SweetAlert.SweetAlertNotifier.Autoclose` | src/SweetAlert/SweetAlertNotifier.php:158-165 | the new configuration is `AutocloseEffect` of the old one |
| `SweetAlert.CancelButtonSpec` | src/SweetAlert/SweetAlertNotifier.php:175-186 | sets `showCancelButton = true`, `confirmCancelText`, `allowOutsideClick = false`; no `timer` afterwards; colour and aria label are not written; every other option unchanged |
| `SweetAlert.SweetAlertNotifier.CancelButton` | src/SweetAlert/SweetAlertNotifier.php:175-186 | the new configuration is `CancelButtonEffect` of the old one |
| `SweetAlert.ConfirmButtonSpec` | src/SweetAlert/SweetAlertNotifier.php:196-207 | the same for `showConfirmButton`, `confirmButtonText`, `confirmButtonColor`, `confirmButtonAriaLabel` |
| `SweetAlert.SweetAlertNotifier.ConfirmButton` | src/SweetAlert/SweetAlertNotifier.php:196-207 | the new configuration is `ConfirmButtonEffect` of the old one |
| `SweetAlert.CloseOnClickOutsideEffect` | src/SweetAlert/SweetAlertNotifier.php:216-221 | `closeOnClickOutside` keeps option keys distinct |
| `SweetAlert.SweetAlertNotifier.CloseOnClickOutside` | src/SweetAlert/SweetAlertNotifier.php:216-221 | sets `allowOutsideClick`, default true |
| `SweetAlert.RemoveTimerSpec` | src/SweetAlert/SweetAlertNotifier.php:244-249 | `timer` is absent afterwards; other options unchanged; no change when there was no `timer`; idempotent; keys stay distinct |
| `SweetAlert.SweetAlertNotifier.RemoveTimer` | src/SweetAlert/SweetAlertNotifier.php:244-249 | the new configuration is `RemoveTimerEffect` of the old one |
| `SweetAlert.ConfirmButtonSettled` | src/SweetAlert/SweetAlertNotifier.php:230-237 | `closeOnClickOutside(false)` and `removeTimer()` after `confirmButton` change nothing |
| `SweetAlert.SweetAlertNotifier.Persistent` | src/SweetAlert/SweetAlertNotifier.php:230-237 | `persistent(t, c, a)` yields exactly the configuration `confirmButton(t, c, a)` yields |
| `SweetAlert.PersistentOnFreshNotifier` | src/SweetAlert/SweetAlertNotifier.php:230-237 | on a fresh notifier, `persistent('Close')` gives exactly `showConfirmButton=true, confirmButtonText='Close', allowOutsideClick=false`, with no `timer` |
| `SweetAlert.FlashLogOrder` | src/SweetAlert/SweetAlertNotifier.php:256-265 | first `remove('sweet_alert')`, then one `flash('sweet_alert.<key>', value)` per option in configuration order, then `flash('sweet_alert.alert', json)` |
| `SweetAlert.SweetAlertNotifier.FlashConfig` | src/SweetAlert/SweetAlertNotifier.php:256-265 | appends exactly `FlashLog(config, json)` to the session's calls and leaves the notifier unchanged |
| `SweetAlert.EntryFlashesReadBack` | src/SweetAlert/SweetAlertNotifier.php:260-262 | after the per-option flashes, each option's value is stored under its session key and every other session key is unchanged |
| `SweetAlert.FlashLogReadBack` | src/SweetAlert/SweetAlertNotifier.php:256-265 | afterwards the session holds the JSON under `sweet_alert.alert` and every other option under `sweet_alert.<key>`; nothing else remains under the namespace; keys outside it are untouched |
| `SweetAlert.SweetAlertNotifier.GetConfig` | src/SweetAlert/SweetAlertNotifier.php:282-291 | with no key, the whole configuration; with a present key, its value (a stored null included); with an absent key, null |
| `SweetAlert.SweetAlertNotifier.SetConfig` | src/SweetAlert/SweetAlertNotifier.php:298-303 | the new configuration is `array_merge(old, partial)` |
| `SweetAlert.SweetAlertNotifier.GetJsonConfig` | src/SweetAlert/SweetAlertNotifier.php:310-313 | returns the JSON encoding of the current configuration, the same text `buildJsonConfig` gives |
| `SweetAlert.GetJsonConfigTwice` | src/SweetAlert/SweetAlertNotifier.php:272-275 | two calls with no change in between return identical text |
| `SweetAlert.SweetAlertNotifier.Flash` | src/SweetAlert/SweetAlertNotifier.php:320-323 | the destructor made explicit: callable once; it flashes the configuration and does not change it |
| `SweetAlert.SuccessOnFreshNotifier` | src/SweetAlert/SweetAlertNotifier.php:113-118 | on a fresh notifier, `success('Saved!', 'Done')` gives `timer, text, title, type`, in that order |
| `SweetAlert.SavedFlashLog` | src/SweetAlert/SweetAlertNotifier.php:256-265 | flashing that configuration gives `remove`, then `timer`, `text`, `title`, `type`, then `alert`, in that order |
| `SweetAlert.SavedAlert` | src/SweetAlert/SweetAlertNotifier.php:320-323 | the whole lifecycle (construct, `success`, destruct) issues exactly those session calls |
| `AlertHelper.Alert` | src/SweetAlert/functions.php:12-21 | returns the given notifier; with a null message, config unchanged; otherwise the effect of `message(message, title)` |
| `AlertHelper.AlertDefaultTitle` | src/SweetAlert/functions.php:12-17 | `alert(m)` stores `m` as `text` and overwrites `title` with '' |
| `AlertHelper.AlertKeepsTypeAndTimer` | src/SweetAlert/functions.php:16-17 | `alert(m, t)` neither sets nor clears `type` or `timer` |

## Left out

- `src/SweetAlert/SweetAlert.php` is a facade that only names a container key. It has no logic and is not part of this model.
- Container resolution of the shared notifier (`app(...)` in `alert()`): the notifier is a parameter of `Alert` instead.
- Reading the framework setting `sweet-alert.autoclose`: the autoclose default is a constructor argument instead.
- `json_encode` is a library call. The notifier takes the encoder as a constructor argument (`encode`), so only its determinism is used. Its output format is not modelled.
- `SweetAlert.SweetAlertNotifier.GetJsonConfig`, `FlashConfig` and `Flash` never see a failed encoding. PHP's `json_encode` returns `false` instead of a string when it fails: on malformed UTF-8, on an INF or NAN float, or on nesting deeper than 512. `getJsonConfig` then returns `false`, and `sweet_alert.alert` is flashed as `false`. The model's encoder always yields a string, so the `sweet_alert.alert` flash always carries `VStr(...)`.
- PHP strings are byte strings. The model writes them as sequences of characters, so byte-level content, invalid UTF-8 included, is not modelled.
- The session store's own semantics (entries that live for exactly one further request, nested arrays behind dotted keys) belong to the host framework. The model keeps the log of calls and a flat dotted-key view of it.
- Destructor timing and PHP object lifetime: the explicit `Flash()` replaces the destructor, and a ghost flag lets it run only once.
- The fluent `return $this` of the builder methods: the methods return nothing, because chaining is a call-site convenience. `Alert` does return its notifier.
- PHP's dynamic typing: the builder methods declare no parameter types, so arguments take the types the model gives them: strings for text, titles, icons and button labels; an optional integer for the autoclose milliseconds; booleans for the progress-bar flag and `closeOnClickOutside`'s value. `closeOnClickOutside`'s `$value` has no documented type and is taken as a boolean, as its default `true` suggests. The colour and aria label of `cancelButton`, `confirmButton` and `persistent` are documented nowhere and are taken as optional strings. That choice changes nothing, because they are never stored. Values of other types passed to these methods are not modelled. An option value given to `setConfig` may be null, a boolean, an integer, a string, a string-keyed array, or any other PHP value (a float, an object). The notifier never looks inside those other values, so they are `VOpaque` values, told apart only by an identity; their contents, and how `json_encode` writes them, are not modelled.
- Integer-like string keys: PHP turns them into integer keys, and `array_merge` renumbers integer keys. All keys here are strings, so this is not modelled.
