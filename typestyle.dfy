/**
 * `typeColor` and `typeEmoji`: the accent colour and the emoji the Flex
 * messages show for an event type, with a neutral fallback for any other
 * string.
 */
module TypeStyle {
  import opened Validation

  const FallbackColor: string := "#9ca3af"
  const FallbackEmoji: string := "\U{1F4CC}"

  /** `typeColor`: one colour per event type; every other string gets grey. */
  function TypeColor(eventType: string): (c: string)
    ensures c == FallbackColor <==> eventType !in EventTypes
    ensures IsHexColor(c)
  {
    if eventType == InUnit then "#10b981"
    else if eventType == InDepartment then "#0ea5e9"
    else if eventType == Headquarters then "#f59e0b"
    else if eventType == OffSite then "#ef4444"
    else FallbackColor
  }

  /** `typeEmoji`: one emoji per event type; every other string gets a pushpin. */
  function TypeEmoji(eventType: string): (e: string)
    ensures e == FallbackEmoji <==> eventType !in EventTypes
    ensures |e| >= 1
  {
    if eventType == InUnit then "\U{1F3E2}"
    else if eventType == InDepartment then "\U{1F3DB}\U{FE0F}"
    else if eventType == Headquarters then "\U{2B50}"
    else if eventType == OffSite then "\U{1F697}"
    else FallbackEmoji
  }

  predicate IsHexDigit(c: char) {
    '0' <= c <= '9' || 'a' <= c <= 'f'
  }

  /** A CSS colour `#rrggbb` in lower case. */
  predicate IsHexColor(s: string) {
    |s| == 7 && s[0] == '#' && forall i :: 1 <= i < 7 ==> IsHexDigit(s[i])
  }

  /** Different event types never share a colour or an emoji. */
  lemma StylesTellTypesApart(a: string, b: string)
    requires a in EventTypes && b in EventTypes && a != b
    ensures TypeColor(a) != TypeColor(b)
    ensures TypeEmoji(a) != TypeEmoji(b)
  {
  }
}
