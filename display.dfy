/**
 * The status-line text: a priority cascade over the stored record (no
 * record, then the topic with its age, then an error other than the
 * waiting sentinel, then a countdown to the next generation). The clock is
 * a parameter; times are integer milliseconds.
 */
module Display {
  import opened Wrappers
  import opened Strings
  import opened Schedule
  import opened SessionStore

  const NoStateText: string := "Topic: after 1 message"
  const GeneratingText: string := "Generating topic..."

  /** Milliseconds in an hour. */
  const MsPerHour: int := 3600000

  /** The hour bucket's text, `~Hh`. */
  function HoursText(hours: nat): (s: string)
    ensures |s| >= 3 && s[0] == '~' && s[|s| - 1] == 'h'
    ensures s[1..|s| - 1] == NatToString(hours)
  {
    "~" + NatToString(hours) + "h"
  }

  /**
   * `formatAge`: how long ago `timestamp` was, as one of six buckets. The
   * source divides by 1000 and compares seconds; here the bounds are in
   * milliseconds. A timestamp in the future counts as `now`.
   */
  function FormatAge(timestamp: int, now: int): (s: string)
    ensures now - timestamp < 300000 ==> s == "now"
    ensures 300000 <= now - timestamp < 900000 ==> s == "~10m"
    ensures 900000 <= now - timestamp < 1800000 ==> s == "~20m"
    ensures 1800000 <= now - timestamp < 3600000 ==> s == "~45m"
    ensures 3600000 <= now - timestamp < 7200000 ==> s == "~1h"
    ensures now - timestamp >= 7200000 ==>
              |s| >= 3 && s[0] == '~' && s[|s| - 1] == 'h' && IsDecimal(s[1..|s| - 1])
              && var h := DecimalValue(s[1..|s| - 1]);
                 h >= 2 && h * MsPerHour <= now - timestamp < (h + 1) * MsPerHour
  {
    var age := now - timestamp;
    if age < 300000 then "now"
    else if age < 900000 then "~10m"
    else if age < 1800000 then "~20m"
    else if age < 3600000 then "~45m"
    else if age < 7200000 then "~1h"
    else
      var hours := age / MsPerHour;
      DecimalRoundTrip(hours);
      HoursText(hours)
  }

  /** `Topic: in N messages`. */
  function CountdownText(remaining: nat): (s: string)
    ensures |s| > 19 && s[..10] == "Topic: in " && s[|s| - 9..] == " messages"
    ensures s[10..|s| - 9] == NatToString(remaining)
  {
    "Topic: in " + NatToString(remaining) + " messages"
  }

  /** Different remaining counts give different countdown texts. */
  lemma CountdownTextInjective(m: nat, n: nat)
    requires CountdownText(m) == CountdownText(n)
    ensures m == n
  {
    var s := CountdownText(m);
    assert NatToString(m) == s[10..|s| - 9] == NatToString(n);
    NatToStringInjective(m, n);
  }

  /**
   * The countdown shown when there is neither a topic nor an error to show:
   * `Generating topic...` exactly when the count is itself a point of the
   * periodic phase, otherwise the number of turns left until the next
   * generation point.
   */
  function Countdown(count: nat, regenInterval: nat): (s: string)
    requires regenInterval > 0
    ensures s == GeneratingText <==> count >= RampEnd && (count - RampEnd) % regenInterval == 0
    ensures s != GeneratingText ==>
              NextGenerationAt(count, regenInterval) > count
              && s == CountdownText(NextGenerationAt(count, regenInterval) - count)
  {
    var nextAt := NextGenerationAt(count, regenInterval);
    var remaining := nextAt - count;
    assert count >= RampEnd ==> (remaining == 0 <==> (count - RampEnd) % regenInterval == 0) by {
      if count >= RampEnd {
        NextGenerationIsFirstDue(count, count, "topic", regenInterval);
      }
    }
    if remaining <= 0 then GeneratingText
    else
      CountdownIsNotGenerating(remaining);
      CountdownText(remaining)
  }

  /** A countdown text never reads as `Generating topic...`. */
  lemma CountdownIsNotGenerating(n: nat)
    ensures CountdownText(n) != GeneratingText
  {
    assert CountdownText(n)[0] == 'T' && GeneratingText[0] == 'G';
  }

  /**
   * What the countdown means: with a topic present, a generation falls due
   * exactly `N` turns from now and at none of the turns in between.
   */
  lemma {:induction false} CountdownMeansNextDue(count: nat, regenInterval: nat, topic: string, m: nat)
    requires regenInterval > 0 && topic != ""
    requires Countdown(count, regenInterval) == CountdownText(m)
    ensures m >= 1
    ensures ShouldGenerate(count + m, topic, regenInterval)
    ensures forall j | count < j < count + m :: !ShouldGenerate(j, topic, regenInterval)
  {
    var n := NextGenerationAt(count, regenInterval);
    CountdownIsNotGenerating(m);
    CountdownTextInjective(m, n - count);
    DueAtNextGeneration(count, topic, regenInterval);
    forall j | count < j < count + m
      ensures !ShouldGenerate(j, topic, regenInterval)
    {
      NextGenerationIsFirstDue(count, j, topic, regenInterval);
    }
  }

  /** `formatTopicDisplay`. */
  function FormatTopicDisplay(state: Option<SessionState>, now: int, regenInterval: nat): (s: string)
    requires regenInterval > 0
    ensures state.None? ==> s == NoStateText
    ensures state.Some? && state.value.topic != "" ==>
              s == state.value.topic + " (" + FormatAge(state.value.generatedAt, now) + ")"
    ensures (state.Some? && state.value.topic == "" && state.value.error != ""
             && state.value.error != WaitingForConversation) ==> s == state.value.error
    ensures state.Some? && state.value.topic == ""
            && (state.value.error == "" || state.value.error == WaitingForConversation) ==>
              s == Countdown(state.value.count, regenInterval)
    ensures state.Some? && state.value.topic == "" ==> s != WaitingForConversation
  {
    match state
    case None => NoStateText
    case Some(st) =>
      if st.topic != "" then st.topic + " (" + FormatAge(st.generatedAt, now) + ")"
      else if st.error != "" && st.error != WaitingForConversation then st.error
      else
        var c := Countdown(st.count, regenInterval);
        assert c[0] != WaitingForConversation[0];
        c
  }

  /** With a topic present, neither the error nor the count affects the text. */
  lemma TopicHidesErrorAndCount(a: SessionState, b: SessionState, now: int, regenInterval: nat)
    requires regenInterval > 0
    requires a.topic != "" && a.topic == b.topic && a.generatedAt == b.generatedAt
    ensures FormatTopicDisplay(Some(a), now, regenInterval) == FormatTopicDisplay(Some(b), now, regenInterval)
  {
  }

  /** The integration-test vectors: one and four turns with no topic show `Topic: in 1 messages`. */
  lemma DisplayVectors(now: int)
    ensures FormatTopicDisplay(Some(SessionState(1, "", "", now)), now, DefaultRegenInterval) == "Topic: in 1 messages"
    ensures FormatTopicDisplay(Some(SessionState(4, "", "", now)), now, DefaultRegenInterval) == "Topic: in 1 messages"
    ensures FormatTopicDisplay(None, now, DefaultRegenInterval) == NoStateText
  {
    assert NatToString(1) == "1";
  }
}
