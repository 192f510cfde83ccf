/**
 * The global `alert(message, title)` helper. The original resolves the
 * shared notifier from the framework's container; here the notifier is
 * passed in.
 */
module AlertHelper {
  import opened Wrappers
  import opened PhpArray
  import opened SweetAlert

  /**
   * Without a message the notifier comes back untouched; with one, it comes
   * back after `message(message, title)`. The title defaults to '' (not
   * null) and no icon is passed.
   */
  method Alert(notifier: SweetAlertNotifier, message: Option<string> := None, title: Option<string> := Some(""))
    returns (r: SweetAlertNotifier)
    requires notifier.Valid()
    modifies notifier`config
    ensures r == notifier && r.Valid()
    ensures message.None? ==> notifier.config == old(notifier.config)
    ensures message.Some? ==> notifier.config == MessageEffect(old(notifier.config), message.value, title, None)
  {
    if message.Some? {
      notifier.Message(message.value, title);
      return notifier;
    }
    return notifier;
  }

  /** `alert(m)` stores `m` as the text and always overwrites the title with ''. */
  lemma AlertDefaultTitle(c: Dict, message: string)
    ensures Get(MessageEffect(c, message, Some(""), None), "text") == Some(VStr(message))
    ensures Get(MessageEffect(c, message, Some(""), None), "title") == Some(VStr(""))
  {
    MessageSpec(c, message, Some(""), None);
  }

  /** `alert(m, t)` neither sets nor clears `type` or `timer`. */
  lemma AlertKeepsTypeAndTimer(c: Dict, message: string, title: Option<string>)
    ensures Get(MessageEffect(c, message, title, None), "type") == Get(c, "type")
    ensures Get(MessageEffect(c, message, title, None), "timer") == Get(c, "timer")
  {
    MessageSpec(c, message, title, None);
  }
}
