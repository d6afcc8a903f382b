/** `send_to_discord`: skip when no webhook is configured, otherwise clip the
    content to 1950 characters plus a fixed marker and post it. */
module Discord {
  import opened Types

  const MaxContent: nat := 1950
  /** The marker appended to clipped content ("list too long, truncated"). */
  const TruncationSuffix: string := "\n...(名單過長已截斷)"

  /** Whether the webhook setting is falsy: unset or the empty string. */
  predicate Unconfigured(webhookUrl: Option<string>)
  {
    webhookUrl.None? || webhookUrl.value == ""
  }

  /** The content as it is posted. */
  function Clip(content: string): (r: string)
    ensures |r| <= MaxContent + |TruncationSuffix|
    ensures |content| <= MaxContent ==> r == content
    ensures |content| > MaxContent ==> |r| == MaxContent + |TruncationSuffix| && r[..MaxContent] == content[..MaxContent] && r[MaxContent..] == TruncationSuffix
  {
    if |content| > MaxContent then content[..MaxContent] + TruncationSuffix else content
  }

  /** What reaches the webhook: nothing when unconfigured, else the clipped content. */
  function Delivered(webhookUrl: Option<string>, content: string): Option<string>
  {
    if Unconfigured(webhookUrl) then None else Some(Clip(content))
  }

  /** Returns the body posted to the webhook, or `None` when skipped. */
  method SendToDiscord(webhookUrl: Option<string>, content: string) returns (posted: Option<string>)
    ensures posted == Delivered(webhookUrl, content)
  {
    if Unconfigured(webhookUrl) {
      return None;
    }
    var body := content;
    if |body| > MaxContent {
      body := body[..MaxContent] + TruncationSuffix;
    }
    posted := Some(body);
  }
}
