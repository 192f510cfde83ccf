/**
 * The alert notifier: a fluent builder that keeps the options of one alert
 * in an ordered PHP array `config` and, when the notifier is finished with,
 * writes that array into the session under the `sweet_alert` namespace.
 *
 * The effect of each builder operation on `config` is first stated as a
 * function on dictionaries (`MessageEffect`, `AutocloseEffect`, ...) with
 * lemmas about it; the class methods below update `config` step by step as
 * the original does and are proved to produce exactly that effect.
 */
module SweetAlert {
  import opened Wrappers
  import opened PhpArray
  import opened Session

  const IconWarning: string := "warning"
  const IconError: string := "error"
  const IconSuccess: string := "success"
  const IconInfo: string := "info"
  const IconQuestion: string := "question"

  /** The session namespace every alert option is flashed under. */
  const Namespace: string := "sweet_alert"

  /** The session key of option `key`. */
  function FlashKey(key: string): string {
    Namespace + "." + key
  }

  // ---------------------------------------------------------------------
  // Effects of the builder operations on the configuration
  // ---------------------------------------------------------------------

  /** The configuration a fresh notifier starts from: only `timer`, bound to the autoclose default. */
  function DefaultConfig(autocloseDefault: Value): Dict {
    Merge([], [("timer", autocloseDefault)])
  }

  /** `message(text, title, icon)`: `text` always, `title` and `type` only when given. */
  function MessageEffect(c: Dict, text: string, title: Option<string>, icon: Option<string>): (r: Dict)
    ensures DistinctKeys(c) ==> DistinctKeys(r)
  {
    var withText := Set(c, "text", VStr(text));
    SetDistinct(c, "text", VStr(text));
    var withTitle :=
      if title.Some? then
        SetDistinct(withText, "title", VStr(title.value));
        Set(withText, "title", VStr(title.value))
      else withText;
    if icon.Some? then
      SetDistinct(withTitle, "type", VStr(icon.value));
      Set(withTitle, "type", VStr(icon.value))
    else withTitle
  }

  /** `autoclose(milliseconds, progressBar)`: nothing at all when no duration is given. */
  function AutocloseEffect(c: Dict, milliseconds: Option<int>, progressBar: bool): (r: Dict)
    ensures DistinctKeys(c) ==> DistinctKeys(r)
  {
    if milliseconds.Some? then
      var withTimer := Set(c, "timer", VInt(milliseconds.value));
      SetDistinct(c, "timer", VInt(milliseconds.value));
      SetDistinct(withTimer, "timerProgressBar", VBool(progressBar));
      Set(withTimer, "timerProgressBar", VBool(progressBar))
    else c
  }

  /** `closeOnClickOutside(value)`. */
  function CloseOnClickOutsideEffect(c: Dict, value: bool): (r: Dict)
    ensures DistinctKeys(c) ==> DistinctKeys(r)
  {
    SetDistinct(c, "allowOutsideClick", VBool(value));
    Set(c, "allowOutsideClick", VBool(value))
  }

  /** `removeTimer()`. */
  function RemoveTimerEffect(c: Dict): Dict {
    if HasKey(c, "timer") then Unset(c, "timer") else c
  }

  /**
   * `cancelButton(text, color, ariaLabel)` as the original behaves: `color`
   * and `ariaLabel` are accepted and never stored (see the method below).
   */
  function CancelButtonEffect(c: Dict, text: string, color: Option<string>, ariaLabel: Option<string>): Dict {
    var labelled := Set(Set(c, "showCancelButton", VBool(true)), "confirmCancelText", VStr(text));
    RemoveTimerEffect(CloseOnClickOutsideEffect(labelled, false))
  }

  /** `confirmButton(text, color, ariaLabel)`, with the same two arguments never stored. */
  function ConfirmButtonEffect(c: Dict, text: string, color: Option<string>, ariaLabel: Option<string>): Dict {
    var labelled := Set(Set(c, "showConfirmButton", VBool(true)), "confirmButtonText", VStr(text));
    RemoveTimerEffect(CloseOnClickOutsideEffect(labelled, false))
  }

  // ---------------------------------------------------------------------
  // What the operations do to the configuration
  // ---------------------------------------------------------------------

  /** A fresh notifier holds exactly one option, `timer`, even when the default is null. */
  lemma DefaultConfigIsTimerOnly(autocloseDefault: Value)
    ensures DefaultConfig(autocloseDefault) == [("timer", autocloseDefault)]
    ensures Keys(DefaultConfig(autocloseDefault)) == ["timer"]
    ensures Get(DefaultConfig(autocloseDefault), "timer") == Some(autocloseDefault)
  {
    assert Merge([], [("timer", autocloseDefault)]) == Merge(Set([], "timer", autocloseDefault), []);
  }

  /** The value of any one option after `message`. */
  lemma MessageGet(c: Dict, text: string, title: Option<string>, icon: Option<string>, k: string)
    ensures Get(MessageEffect(c, text, title, icon), k)
         == if k == "type" && icon.Some? then Some(VStr(icon.value))
            else if k == "title" && title.Some? then Some(VStr(title.value))
            else if k == "text" then Some(VStr(text))
            else Get(c, k)
  {
    var withText := Set(c, "text", VStr(text));
    var withTitle := if title.Some? then Set(withText, "title", VStr(title.value)) else withText;
    SetGet(c, "text", VStr(text), k);
    if title.Some? { SetGet(withText, "title", VStr(title.value), k); }
    if icon.Some? { SetGet(withTitle, "type", VStr(icon.value), k); }
  }

  /**
   * `message` sets `text`; it sets `title` and `type` only when they are
   * given and otherwise keeps what was there; every other option keeps its
   * value, and every existing option keeps its position.
   */
  lemma MessageSpec(c: Dict, text: string, title: Option<string>, icon: Option<string>)
    ensures Get(MessageEffect(c, text, title, icon), "text") == Some(VStr(text))
    ensures Get(MessageEffect(c, text, title, icon), "title")
         == if title.Some? then Some(VStr(title.value)) else Get(c, "title")
    ensures Get(MessageEffect(c, text, title, icon), "type")
         == if icon.Some? then Some(VStr(icon.value)) else Get(c, "type")
    ensures forall k :: k != "text" && k != "title" && k != "type" ==>
              Get(MessageEffect(c, text, title, icon), k) == Get(c, k)
    ensures Keys(c) <= Keys(MessageEffect(c, text, title, icon))
  {
    MessageGet(c, text, title, icon, "text");
    MessageGet(c, text, title, icon, "title");
    MessageGet(c, text, title, icon, "type");
    var withText := Set(c, "text", VStr(text));
    var withTitle := if title.Some? then Set(withText, "title", VStr(title.value)) else withText;
    SetKeysPrefix(c, "text", VStr(text));
    if title.Some? {
      SetKeysPrefix(withText, "title", VStr(title.value));
      PrefixTransitive(Keys(c), Keys(withText), Keys(withTitle));
    }
    if icon.Some? {
      SetKeysPrefix(withTitle, "type", VStr(icon.value));
      PrefixTransitive(Keys(c), Keys(withTitle), Keys(MessageEffect(c, text, title, icon)));
    }
    forall k | k != "text" && k != "title" && k != "type"
      ensures Get(MessageEffect(c, text, title, icon), k) == Get(c, k)
    {
      MessageGet(c, text, title, icon, k);
    }
  }

  /** `message()` with no arguments resets `text` to '' and keeps `title` and `type`. */
  lemma MessageWithoutArguments(c: Dict)
    ensures Get(MessageEffect(c, "", None, None), "text") == Some(VStr(""))
    ensures Get(MessageEffect(c, "", None, None), "title") == Get(c, "title")
    ensures Get(MessageEffect(c, "", None, None), "type") == Get(c, "type")
  {
    MessageSpec(c, "", None, None);
  }

  /**
   * `info`/`success`/`error`/`warning` pass their icon and a title that
   * defaults to '' (never null): both `type` and `title` are overwritten.
   */
  lemma TypedMessage(c: Dict, text: string, title: string, icon: string)
    ensures Get(MessageEffect(c, text, Some(title), Some(icon)), "type") == Some(VStr(icon))
    ensures Get(MessageEffect(c, text, Some(title), Some(icon)), "title") == Some(VStr(title))
    ensures Get(MessageEffect(c, text, Some(title), Some(icon)), "text") == Some(VStr(text))
  {
    MessageSpec(c, text, Some(title), Some(icon));
  }

  /** `basic` passes no icon: it never touches `type`. */
  lemma BasicKeepsType(c: Dict, text: string, title: Option<string>)
    ensures Get(MessageEffect(c, text, title, None), "type") == Get(c, "type")
  {
    MessageSpec(c, text, title, None);
  }

  /**
   * `autoclose(null, p)` changes nothing, an existing `timer` included;
   * `autoclose(ms, p)` sets `timer` and `timerProgressBar` and nothing else.
   */
  lemma AutocloseSpec(c: Dict, milliseconds: Option<int>, progressBar: bool)
    ensures milliseconds.None? ==> AutocloseEffect(c, milliseconds, progressBar) == c
    ensures milliseconds.Some? ==>
              Get(AutocloseEffect(c, milliseconds, progressBar), "timer") == Some(VInt(milliseconds.value))
    ensures milliseconds.Some? ==>
              Get(AutocloseEffect(c, milliseconds, progressBar), "timerProgressBar") == Some(VBool(progressBar))
    ensures forall k :: k != "timer" && k != "timerProgressBar" ==>
              Get(AutocloseEffect(c, milliseconds, progressBar), k) == Get(c, k)
    ensures Keys(c) <= Keys(AutocloseEffect(c, milliseconds, progressBar))
  {
    if milliseconds.Some? {
      var withTimer := Set(c, "timer", VInt(milliseconds.value));
      SetGet(c, "timer", VInt(milliseconds.value), "timer");
      SetGet(withTimer, "timerProgressBar", VBool(progressBar), "timer");
      SetGet(withTimer, "timerProgressBar", VBool(progressBar), "timerProgressBar");
      SetKeysPrefix(c, "timer", VInt(milliseconds.value));
      SetKeysPrefix(withTimer, "timerProgressBar", VBool(progressBar));
      PrefixTransitive(Keys(c), Keys(withTimer), Keys(AutocloseEffect(c, milliseconds, progressBar)));
      forall k | k != "timer" && k != "timerProgressBar"
        ensures Get(AutocloseEffect(c, milliseconds, progressBar), k) == Get(c, k)
      {
        SetGet(c, "timer", VInt(milliseconds.value), k);
        SetGet(withTimer, "timerProgressBar", VBool(progressBar), k);
      }
    }
  }

  /** `removeTimer` deletes `timer` if present, otherwise changes nothing, and is idempotent. */
  lemma RemoveTimerSpec(c: Dict)
    ensures !HasKey(RemoveTimerEffect(c), "timer")
    ensures forall k :: k != "timer" ==> Get(RemoveTimerEffect(c), k) == Get(c, k)
    ensures !HasKey(c, "timer") ==> RemoveTimerEffect(c) == c
    ensures RemoveTimerEffect(RemoveTimerEffect(c)) == RemoveTimerEffect(c)
    ensures DistinctKeys(c) ==> DistinctKeys(RemoveTimerEffect(c))
  {
    UnsetHasKey(c, "timer", "timer");
    forall k | k != "timer" ensures Get(RemoveTimerEffect(c), k) == Get(c, k) {
      UnsetGet(c, "timer", k);
    }
    if DistinctKeys(c) {
      UnsetDistinct(c, "timer");
    }
  }

  /** The value of any one option other than `timer` after `cancelButton`. */
  lemma CancelButtonGet(c: Dict, text: string, color: Option<string>, ariaLabel: Option<string>, k: string)
    requires k != "timer"
    ensures Get(CancelButtonEffect(c, text, color, ariaLabel), k)
         == if k == "allowOutsideClick" then Some(VBool(false))
            else if k == "confirmCancelText" then Some(VStr(text))
            else if k == "showCancelButton" then Some(VBool(true))
            else Get(c, k)
  {
    var shown := Set(c, "showCancelButton", VBool(true));
    var labelled := Set(shown, "confirmCancelText", VStr(text));
    var closed := CloseOnClickOutsideEffect(labelled, false);
    UnsetGet(closed, "timer", k);
    SetGet(c, "showCancelButton", VBool(true), k);
    SetGet(shown, "confirmCancelText", VStr(text), k);
    SetGet(labelled, "allowOutsideClick", VBool(false), k);
  }

  /**
   * After `cancelButton(text, color, ariaLabel)` the cancel button is shown
   * with its label, clicking outside no longer closes the alert and there is
   * no `timer`. The colour and aria label are not written, whatever is
   * passed: those two options, like every other, keep their old value.
   */
  lemma CancelButtonSpec(c: Dict, text: string, color: Option<string>, ariaLabel: Option<string>)
    ensures Get(CancelButtonEffect(c, text, color, ariaLabel), "showCancelButton") == Some(VBool(true))
    ensures Get(CancelButtonEffect(c, text, color, ariaLabel), "confirmCancelText") == Some(VStr(text))
    ensures Get(CancelButtonEffect(c, text, color, ariaLabel), "allowOutsideClick") == Some(VBool(false))
    ensures !HasKey(CancelButtonEffect(c, text, color, ariaLabel), "timer")
    ensures Get(CancelButtonEffect(c, text, color, ariaLabel), "cancelButtonColor") == Get(c, "cancelButtonColor")
    ensures Get(CancelButtonEffect(c, text, color, ariaLabel), "cancelButtonAriaLabel") == Get(c, "cancelButtonAriaLabel")
    ensures forall k :: k != "showCancelButton" && k != "confirmCancelText" && k != "allowOutsideClick" && k != "timer" ==>
              Get(CancelButtonEffect(c, text, color, ariaLabel), k) == Get(c, k)
    ensures DistinctKeys(c) ==> DistinctKeys(CancelButtonEffect(c, text, color, ariaLabel))
  {
    var shown := Set(c, "showCancelButton", VBool(true));
    SetDistinct(c, "showCancelButton", VBool(true));
    SetDistinct(shown, "confirmCancelText", VStr(text));
    RemoveTimerSpec(CloseOnClickOutsideEffect(Set(shown, "confirmCancelText", VStr(text)), false));
    CancelButtonGet(c, text, color, ariaLabel, "showCancelButton");
    CancelButtonGet(c, text, color, ariaLabel, "confirmCancelText");
    CancelButtonGet(c, text, color, ariaLabel, "allowOutsideClick");
    CancelButtonGet(c, text, color, ariaLabel, "cancelButtonColor");
    CancelButtonGet(c, text, color, ariaLabel, "cancelButtonAriaLabel");
    forall k | k != "showCancelButton" && k != "confirmCancelText" && k != "allowOutsideClick" && k != "timer"
      ensures Get(CancelButtonEffect(c, text, color, ariaLabel), k) == Get(c, k)
    {
      CancelButtonGet(c, text, color, ariaLabel, k);
    }
  }

  /** The value of any one option other than `timer` after `confirmButton`. */
  lemma ConfirmButtonGet(c: Dict, text: string, color: Option<string>, ariaLabel: Option<string>, k: string)
    requires k != "timer"
    ensures Get(ConfirmButtonEffect(c, text, color, ariaLabel), k)
         == if k == "allowOutsideClick" then Some(VBool(false))
            else if k == "confirmButtonText" then Some(VStr(text))
            else if k == "showConfirmButton" then Some(VBool(true))
            else Get(c, k)
  {
    var shown := Set(c, "showConfirmButton", VBool(true));
    var labelled := Set(shown, "confirmButtonText", VStr(text));
    var closed := CloseOnClickOutsideEffect(labelled, false);
    UnsetGet(closed, "timer", k);
    SetGet(c, "showConfirmButton", VBool(true), k);
    SetGet(shown, "confirmButtonText", VStr(text), k);
    SetGet(labelled, "allowOutsideClick", VBool(false), k);
  }

  /** The same for `confirmButton`, with `showConfirmButton`, `confirmButtonText` and its colour and aria label. */
  lemma ConfirmButtonSpec(c: Dict, text: string, color: Option<string>, ariaLabel: Option<string>)
    ensures Get(ConfirmButtonEffect(c, text, color, ariaLabel), "showConfirmButton") == Some(VBool(true))
    ensures Get(ConfirmButtonEffect(c, text, color, ariaLabel), "confirmButtonText") == Some(VStr(text))
    ensures Get(ConfirmButtonEffect(c, text, color, ariaLabel), "allowOutsideClick") == Some(VBool(false))
    ensures !HasKey(ConfirmButtonEffect(c, text, color, ariaLabel), "timer")
    ensures Get(ConfirmButtonEffect(c, text, color, ariaLabel), "confirmButtonColor") == Get(c, "confirmButtonColor")
    ensures Get(ConfirmButtonEffect(c, text, color, ariaLabel), "confirmButtonAriaLabel") == Get(c, "confirmButtonAriaLabel")
    ensures forall k :: k != "showConfirmButton" && k != "confirmButtonText" && k != "allowOutsideClick" && k != "timer" ==>
              Get(ConfirmButtonEffect(c, text, color, ariaLabel), k) == Get(c, k)
    ensures DistinctKeys(c) ==> DistinctKeys(ConfirmButtonEffect(c, text, color, ariaLabel))
  {
    var shown := Set(c, "showConfirmButton", VBool(true));
    SetDistinct(c, "showConfirmButton", VBool(true));
    SetDistinct(shown, "confirmButtonText", VStr(text));
    RemoveTimerSpec(CloseOnClickOutsideEffect(Set(shown, "confirmButtonText", VStr(text)), false));
    ConfirmButtonGet(c, text, color, ariaLabel, "showConfirmButton");
    ConfirmButtonGet(c, text, color, ariaLabel, "confirmButtonText");
    ConfirmButtonGet(c, text, color, ariaLabel, "allowOutsideClick");
    ConfirmButtonGet(c, text, color, ariaLabel, "confirmButtonColor");
    ConfirmButtonGet(c, text, color, ariaLabel, "confirmButtonAriaLabel");
    forall k | k != "showConfirmButton" && k != "confirmButtonText" && k != "allowOutsideClick" && k != "timer"
      ensures Get(ConfirmButtonEffect(c, text, color, ariaLabel), k) == Get(c, k)
    {
      ConfirmButtonGet(c, text, color, ariaLabel, k);
    }
  }

  /**
   * What `persistent` adds after `confirmButton` (`closeOnClickOutside(false)`
   * and `removeTimer()`) changes nothing: `persistent` yields exactly the
   * configuration `confirmButton` yields.
   */
  lemma ConfirmButtonSettled(c: Dict, text: string, color: Option<string>, ariaLabel: Option<string>)
    ensures CloseOnClickOutsideEffect(ConfirmButtonEffect(c, text, color, ariaLabel), false)
         == ConfirmButtonEffect(c, text, color, ariaLabel)
    ensures RemoveTimerEffect(ConfirmButtonEffect(c, text, color, ariaLabel))
         == ConfirmButtonEffect(c, text, color, ariaLabel)
  {
    var confirmed := ConfirmButtonEffect(c, text, color, ariaLabel);
    ConfirmButtonSpec(c, text, color, ariaLabel);
    SetExisting(confirmed, "allowOutsideClick", VBool(false));
  }

  /**
   * `persistent('Close')` on a fresh notifier (its configuration holds only
   * `timer`, see `DefaultConfigIsTimerOnly`): the confirm button labelled
   * 'Close', no closing by clicking outside, and no `timer`, whatever the
   * autoclose default was.
   */
  lemma PersistentOnFreshNotifier(autocloseDefault: Value)
    ensures ConfirmButtonEffect([("timer", autocloseDefault)], "Close", None, None)
         == [("showConfirmButton", VBool(true)), ("confirmButtonText", VStr("Close")), ("allowOutsideClick", VBool(false))]
  {
    var start: Dict := [("timer", autocloseDefault)];
    assert Keys(start) == ["timer"];
    SetNew(start, "showConfirmButton", VBool(true));
    SetKeys(start, "showConfirmButton", VBool(true));
    var shown := start + [("showConfirmButton", VBool(true))];
    assert Keys(shown) == ["timer", "showConfirmButton"];
    SetNew(shown, "confirmButtonText", VStr("Close"));
    SetKeys(shown, "confirmButtonText", VStr("Close"));
    var labelled := shown + [("confirmButtonText", VStr("Close"))];
    assert Keys(labelled) == ["timer", "showConfirmButton", "confirmButtonText"];
    SetNew(labelled, "allowOutsideClick", VBool(false));
    SetKeys(labelled, "allowOutsideClick", VBool(false));
    var closed := labelled + [("allowOutsideClick", VBool(false))];
    assert Keys(closed) == ["timer", "showConfirmButton", "confirmButtonText", "allowOutsideClick"];
    assert Keys(closed) == [closed[0].0] + Keys(closed[1..]);
    assert Keys(closed[1..]) == Keys(closed)[1..] == ["showConfirmButton", "confirmButtonText", "allowOutsideClick"];
    assert Unset(closed, "timer") == closed[1..];
  }

  // ---------------------------------------------------------------------
  // Flashing the configuration into the session
  // ---------------------------------------------------------------------

  /** One `flash` per option, in configuration order. */
  function EntryFlashes(c: Dict): seq<Call> {
    seq(|c|, i requires 0 <= i < |c| => Flashed(FlashKey(c[i].0), c[i].1))
  }

  /** Every call `flashConfig` makes, given the JSON text of the configuration. */
  function FlashLog(c: Dict, json: string): seq<Call> {
    [Removed(Namespace)] + EntryFlashes(c) + [Flashed(FlashKey("alert"), VStr(json))]
  }

  /** The session keys the per-option flashes write. */
  function FlashedKeys(c: Dict): set<string> {
    set k | k in Keys(c) :: FlashKey(k)
  }

  /**
   * `flashConfig` first removes the namespace, then flashes every option in
   * configuration order, and last flashes the JSON text under `alert`.
   */
  lemma FlashLogOrder(c: Dict, json: string)
    ensures |FlashLog(c, json)| == |c| + 2
    ensures FlashLog(c, json)[0] == Removed(Namespace)
    ensures forall i :: 0 <= i < |c| ==> FlashLog(c, json)[i + 1] == Flashed(FlashKey(c[i].0), c[i].1)
    ensures FlashLog(c, json)[|c| + 1] == Flashed(FlashKey("alert"), VStr(json))
  {
  }

  lemma FlashKeyInjective(a: string, b: string)
    requires FlashKey(a) == FlashKey(b)
    ensures a == b
  {
    assert a == FlashKey(a)[|Namespace| + 1..];
    assert b == FlashKey(b)[|Namespace| + 1..];
  }

  lemma FlashKeyUnder(k: string)
    ensures Under(FlashKey(k), Namespace)
  {
    assert FlashKey(k)[..|Namespace| + 1] == Namespace + ".";
  }

  /**
   * Replaying the per-option flashes of a configuration (with distinct
   * keys) leaves each option's value under its session key and every other
   * session key as it was.
   */
  lemma {:induction false} EntryFlashesReadBack(store: map<string, Value>, c: Dict)
    requires DistinctKeys(c)
    decreases |c|
    ensures forall k :: HasKey(c, k) ==>
              FlashKey(k) in Replay(store, EntryFlashes(c))
              && Replay(store, EntryFlashes(c))[FlashKey(k)] == Get(c, k).value
    ensures forall key :: key !in FlashedKeys(c) ==>
              (key in Replay(store, EntryFlashes(c)) <==> key in store)
              && (key in store ==> Replay(store, EntryFlashes(c))[key] == store[key])
  {
    if c != [] {
      var e := c[0];
      var rest := c[1..];
      var store' := store[FlashKey(e.0) := e.1];
      assert EntryFlashes(c) == [Flashed(FlashKey(e.0), e.1)] + EntryFlashes(rest);
      assert Keys(c) == [e.0] + Keys(rest);
      assert Replay(store, EntryFlashes(c)) == Replay(store', EntryFlashes(rest));
      EntryFlashesReadBack(store', rest);
      assert FlashKey(e.0) !in FlashedKeys(rest) by {
        forall k | k in Keys(rest) ensures FlashKey(k) != FlashKey(e.0) {
          if FlashKey(k) == FlashKey(e.0) {
            FlashKeyInjective(k, e.0);
          }
        }
      }
      forall key | key !in FlashedKeys(c) ensures key !in FlashedKeys(rest) && key != FlashKey(e.0) {
      }
    }
  }

  /**
   * What the session holds after `flashConfig`: `sweet_alert.alert` holds
   * the JSON text; every option other than one named `alert` is readable
   * under `sweet_alert.<key>`; nothing else is left under the namespace
   * (whatever a previous alert left there is gone); keys outside the
   * namespace are untouched.
   */
  lemma FlashLogReadBack(store: map<string, Value>, c: Dict, json: string)
    requires DistinctKeys(c)
    ensures FlashKey("alert") in Replay(store, FlashLog(c, json))
            && Replay(store, FlashLog(c, json))[FlashKey("alert")] == VStr(json)
    ensures forall k :: HasKey(c, k) && k != "alert" ==>
              FlashKey(k) in Replay(store, FlashLog(c, json))
              && Replay(store, FlashLog(c, json))[FlashKey(k)] == Get(c, k).value
    ensures forall key :: key in Replay(store, FlashLog(c, json)) && Under(key, Namespace) ==>
              key == FlashKey("alert") || key in FlashedKeys(c)
    ensures forall key :: !Under(key, Namespace) ==>
              (key in Replay(store, FlashLog(c, json)) <==> key in store)
              && (key in store ==> Replay(store, FlashLog(c, json))[key] == store[key])
  {
    var removal := [Removed(Namespace)];
    var last := [Flashed(FlashKey("alert"), VStr(json))];
    ReplayAppend(store, removal + EntryFlashes(c), last);
    ReplayAppend(store, removal, EntryFlashes(c));
    var cleared := Apply(store, Removed(Namespace));
    assert Replay(store, removal) == cleared;
    EntryFlashesReadBack(cleared, c);
    var flashed := Replay(cleared, EntryFlashes(c));
    assert Replay(store, FlashLog(c, json)) == flashed[FlashKey("alert") := VStr(json)];
    forall k | HasKey(c, k) && k != "alert" ensures FlashKey(k) != FlashKey("alert") {
      if FlashKey(k) == FlashKey("alert") {
        FlashKeyInjective(k, "alert");
      }
    }
    forall key | key in FlashedKeys(c) ensures Under(key, Namespace) {
      var k :| k in Keys(c) && key == FlashKey(k);
      FlashKeyUnder(k);
    }
    FlashKeyUnder("alert");
  }

  // ---------------------------------------------------------------------
  // The notifier
  // ---------------------------------------------------------------------

  class SweetAlertNotifier {
    const session: SessionStore
    /** `json_encode`, a library call the model takes as given. */
    const encode: Dict -> string
    var config: Dict
    /** Set once the configuration has been flashed (the destructor has run). */
    ghost var flashed: bool

    ghost predicate Valid()
      reads this
    {
      DistinctKeys(config)
    }

    /** The autoclose default is the framework setting the original reads at construction. */
    constructor (session: SessionStore, autocloseDefault: Value, encode: Dict -> string)
      ensures Valid() && !flashed
      ensures this.session == session && this.encode == encode
      ensures config == [("timer", autocloseDefault)]
    {
      this.session := session;
      this.encode := encode;
      config := [];
      flashed := false;
      new;
      SetDefaultConfig(autocloseDefault);
      DefaultConfigIsTimerOnly(autocloseDefault);
    }

    method SetDefaultConfig(autocloseDefault: Value)
      requires Valid()
      modifies this`config
      ensures Valid() && config == Merge(old(config), [("timer", autocloseDefault)])
    {
      SetConfig([("timer", autocloseDefault)]);
    }

    method Message(text: string := "", title: Option<string> := None, icon: Option<string> := None)
      requires Valid()
      modifies this`config
      ensures Valid() && config == MessageEffect(old(config), text, title, icon)
    {
      SetDistinct(config, "text", VStr(text));
      config := Set(config, "text", VStr(text));
      if title.Some? {
        SetDistinct(config, "title", VStr(title.value));
        config := Set(config, "title", VStr(title.value));
      }
      if icon.Some? {
        SetDistinct(config, "type", VStr(icon.value));
        config := Set(config, "type", VStr(icon.value));
      }
    }

    method Basic(text: string, title: Option<string>)
      requires Valid()
      modifies this`config
      ensures Valid() && config == MessageEffect(old(config), text, title, None)
    {
      Message(text, title);
    }

    method Info(text: string, title: Option<string> := Some(""))
      requires Valid()
      modifies this`config
      ensures Valid() && config == MessageEffect(old(config), text, title, Some(IconInfo))
    {
      Message(text, title, Some(IconInfo));
    }

    method Success(text: string, title: Option<string> := Some(""))
      requires Valid()
      modifies this`config
      ensures Valid() && config == MessageEffect(old(config), text, title, Some(IconSuccess))
    {
      Message(text, title, Some(IconSuccess));
    }

    method Error(text: string, title: Option<string> := Some(""))
      requires Valid()
      modifies this`config
      ensures Valid() && config == MessageEffect(old(config), text, title, Some(IconError))
    {
      Message(text, title, Some(IconError));
    }

    method Warning(text: string, title: Option<string> := Some(""))
      requires Valid()
      modifies this`config
      ensures Valid() && config == MessageEffect(old(config), text, title, Some(IconWarning))
    {
      Message(text, title, Some(IconWarning));
    }

    method Autoclose(milliseconds: Option<int> := None, progressBar: bool := true)
      requires Valid()
      modifies this`config
      ensures Valid() && config == AutocloseEffect(old(config), milliseconds, progressBar)
    {
      if milliseconds.Some? {
        SetDistinct(config, "timer", VInt(milliseconds.value));
        config := Set(config, "timer", VInt(milliseconds.value));
        SetDistinct(config, "timerProgressBar", VBool(progressBar));
        config := Set(config, "timerProgressBar", VBool(progressBar));
      }
    }

    /**
     * Probable defect in the original: the colour and the aria label are
     * each guarded by `isset(...) ?? <assignment>`. PHP reads that as
     * `isset(...) ?? (<assignment>)`, and `isset` yields a boolean, never
     * null, so the assignment is never evaluated: neither option is stored.
     * The model does the same and ignores `color` and `ariaLabel`.
     */
    method CancelButton(buttonText: string, color: Option<string> := None, ariaLabel: Option<string> := None)
      requires Valid()
      modifies this`config
      ensures Valid() && config == CancelButtonEffect(old(config), buttonText, color, ariaLabel)
    {
      SetDistinct(config, "showCancelButton", VBool(true));
      config := Set(config, "showCancelButton", VBool(true));
      SetDistinct(config, "confirmCancelText", VStr(buttonText));
      config := Set(config, "confirmCancelText", VStr(buttonText));
      CloseOnClickOutside(false);
      RemoveTimer();
    }

    /** The same probable defect as in `CancelButton`: `color` and `ariaLabel` are never stored. */
    method ConfirmButton(buttonText: string, color: Option<string> := None, ariaLabel: Option<string> := None)
      requires Valid()
      modifies this`config
      ensures Valid() && config == ConfirmButtonEffect(old(config), buttonText, color, ariaLabel)
    {
      SetDistinct(config, "showConfirmButton", VBool(true));
      config := Set(config, "showConfirmButton", VBool(true));
      SetDistinct(config, "confirmButtonText", VStr(buttonText));
      config := Set(config, "confirmButtonText", VStr(buttonText));
      CloseOnClickOutside(false);
      RemoveTimer();
    }

    method CloseOnClickOutside(value: bool := true)
      requires Valid()
      modifies this`config
      ensures Valid() && config == CloseOnClickOutsideEffect(old(config), value)
    {
      SetDistinct(config, "allowOutsideClick", VBool(value));
      config := Set(config, "allowOutsideClick", VBool(value));
    }

    /** Yields exactly what `ConfirmButton` yields. */
    method Persistent(buttonText: string := "OK", color: Option<string> := None, ariaLabel: Option<string> := None)
      requires Valid()
      modifies this`config
      ensures Valid() && config == ConfirmButtonEffect(old(config), buttonText, color, ariaLabel)
    {
      ConfirmButton(buttonText, color, ariaLabel);
      CloseOnClickOutside(false);
      RemoveTimer();
      ConfirmButtonSettled(old(config), buttonText, color, ariaLabel);
    }

    method RemoveTimer()
      requires Valid()
      modifies this`config
      ensures Valid() && config == RemoveTimerEffect(old(config))
    {
      if HasKey(config, "timer") {
        UnsetDistinct(config, "timer");
        config := Unset(config, "timer");
      }
    }

    method FlashConfig()
      modifies session
      ensures unchanged(this)
      ensures session.log == old(session.log) + FlashLog(config, BuildJsonConfig())
    {
      session.Remove(Namespace);
      for i := 0 to |config|
        invariant session.log == old(session.log) + [Removed(Namespace)] + EntryFlashes(config[..i])
      {
        assert EntryFlashes(config[..i + 1]) == EntryFlashes(config[..i]) + [Flashed(FlashKey(config[i].0), config[i].1)];
        session.Flash(FlashKey(config[i].0), config[i].1);
      }
      assert config[..|config|] == config;
      session.Flash(FlashKey("alert"), VStr(BuildJsonConfig()));
    }

    function BuildJsonConfig(): string
      reads this
    {
      encode(config)
    }

    /**
     * With no key, the whole configuration; with a key, its value when the
     * key exists (a stored null included) and null when it does not.
     */
    method GetConfig(key: Option<string> := None) returns (r: Value)
      ensures key.None? ==> r == VArray(config)
      ensures key.Some? && HasKey(config, key.value) ==> Get(config, key.value) == Some(r)
      ensures key.Some? && !HasKey(config, key.value) ==> r == VNull
    {
      if key.None? {
        return VArray(config);
      }
      if HasKey(config, key.value) {
        return Get(config, key.value).value;
      }
      return VNull;
    }

    /** `array_merge` of the configuration with `partial`: keys of `partial` take its values. */
    method SetConfig(partial: Dict := [])
      requires Valid()
      modifies this`config
      ensures Valid() && config == Merge(old(config), partial)
    {
      config := Merge(config, partial);
    }

    method GetJsonConfig() returns (json: string)
      ensures json == encode(config)
    {
      json := BuildJsonConfig();
    }

    /**
     * The destructor of the original, made explicit: the owner calls it once,
     * when it is done with the notifier.
     */
    method Flash()
      requires !flashed
      modifies this`flashed, session
      ensures flashed && config == old(config)
      ensures session.log == old(session.log) + FlashLog(config, encode(config))
    {
      FlashConfig();
      flashed := true;
    }
  }

  /** Asking for the JSON text twice with no change in between gives the same text. */
  method GetJsonConfigTwice(notifier: SweetAlertNotifier) returns (first: string, second: string)
    ensures first == second == notifier.encode(notifier.config)
  {
    first := notifier.GetJsonConfig();
    second := notifier.GetJsonConfig();
  }

  /** The configuration of the worked example below, in insertion order. */
  function SavedConfig(autocloseDefault: Value): Dict {
    [("timer", autocloseDefault), ("text", VStr("Saved!")), ("title", VStr("Done")), ("type", VStr(IconSuccess))]
  }

  /** `success('Saved!', 'Done')` on a fresh notifier appends `text`, `title`, `type` after `timer`. */
  lemma SuccessOnFreshNotifier(autocloseDefault: Value)
    ensures MessageEffect(DefaultConfig(autocloseDefault), "Saved!", Some("Done"), Some(IconSuccess))
         == SavedConfig(autocloseDefault)
  {
    var start := DefaultConfig(autocloseDefault);
    DefaultConfigIsTimerOnly(autocloseDefault);
    SetNew(start, "text", VStr("Saved!"));
    SetKeys(start, "text", VStr("Saved!"));
    var withText := start + [("text", VStr("Saved!"))];
    assert Keys(withText) == ["timer", "text"];
    SetNew(withText, "title", VStr("Done"));
    SetKeys(withText, "title", VStr("Done"));
    var withTitle := withText + [("title", VStr("Done"))];
    assert Keys(withTitle) == ["timer", "text", "title"];
    SetNew(withTitle, "type", VStr(IconSuccess));
  }

  /**
   * Flashing that configuration: the namespace is cleared, then `timer`
   * (the default, null included), `text`, `title` and `type` are flashed in
   * that order, then the JSON text.
   */
  lemma SavedFlashLog(autocloseDefault: Value, json: string)
    ensures FlashLog(SavedConfig(autocloseDefault), json) == [
              Removed("sweet_alert"),
              Flashed("sweet_alert.timer", autocloseDefault),
              Flashed("sweet_alert.text", VStr("Saved!")),
              Flashed("sweet_alert.title", VStr("Done")),
              Flashed("sweet_alert.type", VStr("success")),
              Flashed("sweet_alert.alert", VStr(json))]
  {
    assert FlashKey("timer") == "sweet_alert.timer";
    assert FlashKey("text") == "sweet_alert.text";
    assert FlashKey("title") == "sweet_alert.title";
    assert FlashKey("type") == "sweet_alert.type";
    assert FlashKey("alert") == "sweet_alert.alert";
    assert EntryFlashes(SavedConfig(autocloseDefault)) == [
      Flashed("sweet_alert.timer", autocloseDefault),
      Flashed("sweet_alert.text", VStr("Saved!")),
      Flashed("sweet_alert.title", VStr("Done")),
      Flashed("sweet_alert.type", VStr("success"))];
  }

  /**
   * A fresh notifier, `success('Saved!', 'Done')`, then the end of its life:
   * the session receives exactly these calls, in this order.
   */
  method SavedAlert(session: SessionStore, autocloseDefault: Value, encode: Dict -> string)
    returns (notifier: SweetAlertNotifier)
    modifies session
    ensures notifier.config == SavedConfig(autocloseDefault)
    ensures session.log == old(session.log) + [
              Removed("sweet_alert"),
              Flashed("sweet_alert.timer", autocloseDefault),
              Flashed("sweet_alert.text", VStr("Saved!")),
              Flashed("sweet_alert.title", VStr("Done")),
              Flashed("sweet_alert.type", VStr("success")),
              Flashed("sweet_alert.alert", VStr(encode(SavedConfig(autocloseDefault))))]
  {
    notifier := new SweetAlertNotifier(session, autocloseDefault, encode);
    DefaultConfigIsTimerOnly(autocloseDefault);
    notifier.Success("Saved!", Some("Done"));
    SuccessOnFreshNotifier(autocloseDefault);
    notifier.Flash();
    SavedFlashLog(autocloseDefault, encode(SavedConfig(autocloseDefault)));
  }
}
