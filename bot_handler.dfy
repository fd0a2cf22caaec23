/** The message text `handle_notification` builds for a notification of the
    scraping bot: a bold title, the content, a timestamp line and an
    optional information line, in Telegram Markdown. */
module BotHandler {
  import opened Wrappers

  /** The four keys the handler reads, each as Python renders it; a missing
      `additional_info` value is `None`. */
  datatype Notification = Notification(title: string, content: string, timestamp: string, additionalInfo: Option<string>)

  /** Python truthiness of the `additional_info` value: present and non-empty. */
  predicate HasInfo(n: Notification)
  {
    n.additionalInfo.Some? && n.additionalInfo.value != ""
  }

  /** Everything up to and including the timestamp line. */
  function Head(n: Notification): string
  {
    "📢 *" + n.title + "*\n\n" + n.content + "\n\n" + "🕒 " + n.timestamp + "\n"
  }

  /** The message: the head, then the information line when there is
      information to show. */
  function BuildMessage(n: Notification): (r: string)
    ensures HasInfo(n) ==> r == Head(n) + "ℹ️ " + n.additionalInfo.value + "\n"
    ensures !HasInfo(n) ==> r == Head(n)
  {
    var message := "📢 *" + n.title + "*\n\n";
    var message := message + n.content + "\n\n";
    var message := message + "🕒 " + n.timestamp + "\n";
    if HasInfo(n) then message + "ℹ️ " + n.additionalInfo.value + "\n" else message
  }

  /** The message opens with the bold title followed by a blank line, the
      content follows, terminated by a blank line, and the timestamp line
      comes right after it. */
  lemma MessageOpening(n: Notification)
    ensures "📢 *" + n.title + "*\n\n" <= BuildMessage(n)
    ensures BuildMessage(n)[|"📢 *" + n.title + "*\n\n"|..][..|n.content + "\n\n🕒 "|] == n.content + "\n\n🕒 "
  {
    var t := "📢 *" + n.title + "*\n\n";
    var rest := n.content + "\n\n" + "🕒 " + n.timestamp + "\n";
    var tail := if HasInfo(n) then "ℹ️ " + n.additionalInfo.value + "\n" else "";
    assert BuildMessage(n) == t + (rest + tail);
    assert (t + (rest + tail))[|t|..] == rest + tail;
    assert (rest + tail)[..|n.content + "\n\n🕒 "|] == n.content + "\n\n🕒 ";
  }

  /** The information line is the only difference made by the information:
      without it the message ends with the timestamp line, and with it the
      same text is followed by exactly one more line. */
  lemma InfoLineAppended(n: Notification, info: string)
    requires info != ""
    ensures BuildMessage(n.(additionalInfo := Some(info)))
              == BuildMessage(n.(additionalInfo := None)) + "ℹ️ " + info + "\n"
    ensures BuildMessage(n.(additionalInfo := Some(""))) == BuildMessage(n.(additionalInfo := None))
  {
  }

  /** Without information the message ends with the timestamp line. */
  lemma EndsWithTimestamp(n: Notification)
    requires !HasInfo(n)
    ensures |BuildMessage(n)| >= |"🕒 " + n.timestamp + "\n"|
    ensures BuildMessage(n)[|BuildMessage(n)| - |"🕒 " + n.timestamp + "\n"|..] == "🕒 " + n.timestamp + "\n"
  {
    var line := "🕒 " + n.timestamp + "\n";
    var pre := "📢 *" + n.title + "*\n\n" + n.content + "\n\n";
    assert BuildMessage(n) == pre + line;
  }
}
