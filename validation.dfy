/**
 * Session-id validation: an id is accepted when it matches either of two
 * anchored regular expressions, a lower-case 8-4-4-4-12 hexadecimal UUID
 * (the textual layout of section 3 of RFC 4122, with no version or variant
 * check) or `agent-` followed by exactly seven lower-case hex digits.
 * The regular expressions are modelled by recursive matchers that follow
 * their structure; `UuidLayout` and `AgentLayout` are independent,
 * position-by-position descriptions of the same languages.
 */
module Validation {

  /** The character class `[a-f0-9]`. */
  predicate IsLowerHex(c: char)
  {
    '0' <= c <= '9' || 'a' <= c <= 'f'
  }

  /** `[a-f0-9]*`, anchored at both ends. */
  predicate HexRun(s: string)
  {
    |s| == 0 || (IsLowerHex(s[0]) && HexRun(s[1..]))
  }

  /**
   * `[a-f0-9]{g0}-[a-f0-9]{g1}-...-[a-f0-9]{gn}`, anchored at both ends:
   * hex groups of the given widths separated by single dashes.
   */
  predicate MatchesGroups(s: string, groups: seq<nat>)
    decreases |groups|
  {
    if |groups| == 0 then false
    else if |groups| == 1 then |s| == groups[0] && HexRun(s)
    else
      var w := groups[0];
      |s| > w && HexRun(s[..w]) && s[w] == '-' && MatchesGroups(s[w + 1..], groups[1..])
  }

  /** The group widths of `UUID_REGEX`. */
  const UuidGroups: seq<nat> := [8, 4, 4, 4, 12]

  /** The literal prefix of `AGENT_ID_REGEX`. */
  const AgentPrefix: string := "agent-"

  /** `UUID_REGEX.test(s)`. */
  predicate MatchesUuid(s: string)
  {
    MatchesGroups(s, UuidGroups)
  }

  /** `AGENT_ID_REGEX.test(s)`. */
  predicate MatchesAgentId(s: string)
  {
    |s| >= |AgentPrefix| && s[..|AgentPrefix|] == AgentPrefix && MatchesGroups(s[|AgentPrefix|..], [7])
  }

  /** `validateSessionId`: the id matches one of the two accepted shapes. */
  predicate ValidateSessionId(sessionId: string)
  {
    MatchesUuid(sessionId) || MatchesAgentId(sessionId)
  }

  /** Positions of the dashes in a UUID. */
  predicate IsUuidDashPosition(i: int)
  {
    i == 8 || i == 13 || i == 18 || i == 23
  }

  /** A 36-character string with dashes at 8, 13, 18 and 23 and lower-case hex elsewhere. */
  predicate UuidLayout(s: string)
  {
    |s| == 36 && forall i | 0 <= i < 36 :: if IsUuidDashPosition(i) then s[i] == '-' else IsLowerHex(s[i])
  }

  /** `agent-` followed by exactly seven lower-case hex characters. */
  predicate AgentLayout(s: string)
  {
    |s| == 13 && s[..6] == "agent-" && forall i | 6 <= i < 13 :: IsLowerHex(s[i])
  }

  lemma {:induction false} HexRunIffAll(s: string)
    ensures HexRun(s) <==> forall i | 0 <= i < |s| :: IsLowerHex(s[i])
  {
    if |s| > 0 {
      HexRunIffAll(s[1..]);
      assert forall i | 1 <= i < |s| :: s[i] == s[1..][i - 1];
    }
  }

  /** Lower-case hex at every position from `lo` up to `hi`. */
  predicate HexBetween(s: string, lo: nat, hi: nat)
    requires lo <= hi <= |s|
  {
    forall i | lo <= i < hi :: IsLowerHex(s[i])
  }

  /**
   * One step of `MatchesGroups` on the suffix of `s` from `k`: a group of
   * width `w` at `k`, a dash after it, and the rest after the dash.
   */
  lemma GroupStepAt(s: string, k: nat, w: nat, rest: seq<nat>)
    requires k <= |s| && |rest| > 0
    ensures MatchesGroups(s[k..], [w] + rest) <==>
              |s| > k + w && HexBetween(s, k, k + w) && s[k + w] == '-'
              && MatchesGroups(s[k + w + 1..], rest)
  {
    var t := s[k..];
    GroupStep(t, w, rest);
    if |t| > w {
      assert forall i | 0 <= i < w :: t[i] == s[k + i];
      assert t[w] == s[k + w];
      assert t[w + 1..] == s[k + w + 1..];
    }
  }

  /** One step of `MatchesGroups`: a leading group of width `w`, a dash, and the rest. */
  lemma GroupStep(s: string, w: nat, rest: seq<nat>)
    requires |rest| > 0
    ensures MatchesGroups(s, [w] + rest) <==>
              |s| > w && (forall i | 0 <= i < w :: IsLowerHex(s[i])) && s[w] == '-'
              && MatchesGroups(s[w + 1..], rest)
  {
    assert ([w] + rest)[1..] == rest;
    if |s| > w {
      HexRunIffAll(s[..w]);
    }
  }

  /** The last group: exactly `w` hex characters from `k` to the end. */
  lemma LastGroupAt(s: string, k: nat, w: nat)
    requires k <= |s|
    ensures MatchesGroups(s[k..], [w]) <==> |s| == k + w && HexBetween(s, k, |s|)
  {
    HexRunIffAll(s[k..]);
    assert forall i | 0 <= i < |s| - k :: s[k..][i] == s[k + i];
  }

  /** `UUID_REGEX` unfolded into absolute positions. */
  lemma UuidGroupsAt(s: string)
    ensures MatchesUuid(s) <==>
              |s| == 36 && HexBetween(s, 0, 8) && s[8] == '-' && HexBetween(s, 9, 13) && s[13] == '-'
              && HexBetween(s, 14, 18) && s[18] == '-' && HexBetween(s, 19, 23) && s[23] == '-'
              && HexBetween(s, 24, 36)
  {
    assert s[0..] == s;
    GroupStepAt(s, 0, 8, [4, 4, 4, 12]);
    if |s| > 8 {
      GroupStepAt(s, 9, 4, [4, 4, 12]);
      if |s| > 13 {
        GroupStepAt(s, 14, 4, [4, 12]);
        if |s| > 18 {
          GroupStepAt(s, 19, 4, [12]);
          if |s| > 23 {
            LastGroupAt(s, 24, 12);
          }
        }
      }
    }
  }

  /** The structural matcher for `UUID_REGEX` accepts exactly the UUID layout. */
  lemma UuidRegexIsLayout(s: string)
    ensures MatchesUuid(s) <==> UuidLayout(s)
  {
    UuidGroupsAt(s);
    if UuidLayout(s) {
      forall i | 0 <= i < 36 && !IsUuidDashPosition(i)
        ensures IsLowerHex(s[i])
      {
        assert !IsUuidDashPosition(i);
      }
    }
  }

  /** The structural matcher for `AGENT_ID_REGEX` accepts exactly the agent layout. */
  lemma AgentRegexIsLayout(s: string)
    ensures MatchesAgentId(s) <==> AgentLayout(s)
  {
    if |s| >= 6 {
      HexRunIffAll(s[6..]);
      assert forall i | 6 <= i < |s| :: s[i] == s[6..][i - 6];
    }
  }

  /** An id is accepted exactly when it has the UUID layout or the agent layout. */
  lemma ValidIffLayout(s: string)
    ensures ValidateSessionId(s) <==> UuidLayout(s) || AgentLayout(s)
  {
    UuidRegexIsLayout(s);
    AgentRegexIsLayout(s);
  }

  /**
   * Every accepted id is 36 or 13 characters long and made only of
   * lower-case letters, digits and `-`; so it holds no `/`, no `.` and no
   * upper-case letter, and cannot name a path outside the state directory.
   */
  lemma AcceptedIdShape(s: string)
    requires ValidateSessionId(s)
    ensures |s| == 36 || |s| == 13
    ensures forall i | 0 <= i < |s| :: 'a' <= s[i] <= 'z' || '0' <= s[i] <= '9' || s[i] == '-'
  {
    ValidIffLayout(s);
    if AgentLayout(s) {
      forall i | 0 <= i < |s|
        ensures 'a' <= s[i] <= 'z' || '0' <= s[i] <= '9' || s[i] == '-'
      {
        if i < 6 { assert s[i] == "agent-"[i]; }
      }
    }
  }

  /** An id holding an upper-case letter is rejected, whatever else it holds. */
  lemma UpperCaseRejected(s: string, i: nat)
    requires i < |s| && 'A' <= s[i] <= 'Z'
    ensures !ValidateSessionId(s)
  {
    if ValidateSessionId(s) {
      AcceptedIdShape(s);
    }
  }

  /** `agent-` with six or eight hex digits is rejected: the count is anchored at seven. */
  lemma AgentDigitCountIsExact(digits: string)
    requires |digits| == 6 || |digits| == 8
    ensures !ValidateSessionId(AgentPrefix + digits)
  {
    if ValidateSessionId(AgentPrefix + digits) {
      AcceptedIdShape(AgentPrefix + digits);
    }
  }

  /** A hex group of width `w`, a dash and a match of the remaining groups match all the groups. */
  lemma GroupThenRest(g: string, rest: string, w: nat, widths: seq<nat>)
    requires |g| == w && HexRun(g) && |widths| > 0 && MatchesGroups(rest, widths)
    ensures MatchesGroups(g + "-" + rest, [w] + widths)
  {
    var t := g + "-" + rest;
    assert ([w] + widths)[1..] == widths;
    assert t[..w] == g && t[w] == '-' && t[w + 1..] == rest;
  }

  /** Five hex groups of widths 8, 4, 4, 4 and 12 joined by dashes match `UUID_REGEX`. */
  lemma UuidFromGroups(u: string, g1: string, g2: string, g3: string, g4: string, g5: string)
    requires |g1| == 8 && |g2| == 4 && |g3| == 4 && |g4| == 4 && |g5| == 12
    requires HexRun(g1) && HexRun(g2) && HexRun(g3) && HexRun(g4) && HexRun(g5)
    requires u == g1 + "-" + g2 + "-" + g3 + "-" + g4 + "-" + g5
    ensures MatchesUuid(u)
  {
    var t4 := g4 + "-" + g5;
    var t3 := g3 + "-" + t4;
    var t2 := g2 + "-" + t3;
    NestDashes(g1, g2, g3, g4, g5);
    GroupThenRest(g4, g5, 4, [12]);
    assert [4] + [12] == [4, 12];
    GroupThenRest(g3, t4, 4, [4, 12]);
    assert [4] + [4, 12] == [4, 4, 12];
    GroupThenRest(g2, t3, 4, [4, 4, 12]);
    assert [4] + [4, 4, 12] == [4, 4, 4, 12];
    GroupThenRest(g1, t2, 8, [4, 4, 4, 12]);
    assert [8] + [4, 4, 4, 12] == UuidGroups;
  }

  /** Dash-joined groups, regrouped from the right. */
  lemma NestDashes(a: string, b: string, c: string, d: string, e: string)
    ensures a + "-" + b + "-" + c + "-" + d + "-" + e == a + "-" + (b + "-" + (c + "-" + (d + "-" + e)))
  {
  }

  /** Hex runs concatenate. */
  lemma HexRunConcat(a: string, b: string)
    requires HexRun(a) && HexRun(b)
    ensures HexRun(a + b)
  {
    HexRunIffAll(a);
    HexRunIffAll(b);
    HexRunIffAll(a + b);
  }

  lemma FirstSampleGroupIsHex()
    ensures HexRun("a1b2c3d4")
  {
  }

  lemma MiddleSampleGroupsAreHex()
    ensures HexRun("e5f6") && HexRun("4789") && HexRun("a123")
  {
  }

  lemma LastSampleGroupIsHex()
    ensures HexRun("b456c789d012")
  {
    assert HexRun("b456c7") && HexRun("89d012");
    assert "b456c789d012" == "b456c7" + "89d012";
    HexRunConcat("b456c7", "89d012");
  }

  lemma SampleGroupsAreHex()
    ensures HexRun("a1b2c3d4") && HexRun("e5f6") && HexRun("4789") && HexRun("a123") && HexRun("b456c789d012")
  {
    FirstSampleGroupIsHex();
    MiddleSampleGroupsAreHex();
    LastSampleGroupIsHex();
  }

  lemma SampleUuidMatches(u: string)
    requires u == "a1b2c3d4" + "-" + "e5f6" + "-" + "4789" + "-" + "a123" + "-" + "b456c789d012"
    ensures MatchesUuid(u)
  {
    SampleGroupsAreHex();
    UuidFromGroups(u, "a1b2c3d4", "e5f6", "4789", "a123", "b456c789d012");
  }

  /** The unit-test vector of the validator: the sample UUID is accepted. */
  lemma UuidVectorAccepted(u: string)
    requires u == "a1b2c3d4-e5f6-4789-a123-b456c789d012"
    ensures ValidateSessionId(u)
  {
    assert u == "a1b2c3d4" + "-" + "e5f6" + "-" + "4789" + "-" + "a123" + "-" + "b456c789d012";
    SampleUuidMatches(u);
  }

  /** The unit-test vector of the validator: the sample agent id is accepted. */
  lemma AgentVectorAccepted()
    ensures ValidateSessionId("agent-abc1234")
  {
    var g := "agent-abc1234";
    assert g[..6] == AgentPrefix;
    assert HexRun("abc1234");
    assert g[6..] == "abc1234";
  }

  /** The unit-test vectors of the validator: the three rejected ids. */
  lemma RejectedVectors()
    ensures !ValidateSessionId("invalid")
    ensures !ValidateSessionId("")
    ensures !ValidateSessionId("agent-")
  {
    ValidIffLayout("invalid");
    ValidIffLayout("");
    ValidIffLayout("agent-");
  }
}
