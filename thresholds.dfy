/**
 * Threshold resolution (`thresholdsForType`): the lead times, in minutes
 * before an event, at which reminders go out for an event type. A persisted
 * override (`notification_settings.thresholds`) is a comma-separated list;
 * without one a fixed table per event type applies.
 */
module Thresholds {
  import opened Wrappers
  import opened Text
  import opened Validation

  /** The table used when no override is stored. */
  function DefaultThresholds(eventType: string): (r: seq<int>)
    ensures |r| >= 1 && forall i :: 0 <= i < |r| ==> 0 <= r[i] <= MaxThresholdMinutes
  {
    if eventType == InUnit then [30]
    else if eventType == InDepartment then [60]
    else if eventType == Headquarters then [60]
    else if eventType == OffSite then [120, 60]
    else [60]
  }

  /** `parseInt(s.trim(), 10)` of one comma token. */
  function Reading(token: string): Option<int> {
    ParseInt(Trim(token))
  }

  /**
   * `.map(s => parseInt(s.trim(), 10)).filter(n => !isNaN(n))`: the tokens
   * that read as numbers, in their order, the others dropped.
   */
  function ParseTokens(tokens: seq<string>): (r: seq<int>)
    ensures |r| <= |tokens|
    ensures forall x :: x in r ==> exists tok :: tok in tokens && Reading(tok) == Some(x)
  {
    if |tokens| == 0 then []
    else
      var rest := ParseTokens(tokens[1..]);
      var p := Reading(tokens[0]);
      if p.Some? then [p.value] + rest else rest
  }

  /** When every token reads as a number, the result has one entry per token, in order. */
  lemma {:induction false} ParseTokensKeepsAll(tokens: seq<string>)
    requires forall i :: 0 <= i < |tokens| ==> Reading(tokens[i]).Some?
    ensures var r := ParseTokens(tokens);
      |r| == |tokens| && forall i :: 0 <= i < |r| ==> Reading(tokens[i]) == Some(r[i])
  {
    if |tokens| > 0 {
      var rest := tokens[1..];
      assert forall i :: 0 <= i < |rest| ==> rest[i] == tokens[i + 1];
      ParseTokensKeepsAll(rest);
      var r := ParseTokens(tokens);
      assert r == [Reading(tokens[0]).value] + ParseTokens(rest);
      forall i | 0 <= i < |r| ensures Reading(tokens[i]) == Some(r[i]) {
        if i > 0 {
          assert tokens[i] == rest[i - 1] && r[i] == ParseTokens(rest)[i - 1];
        }
      }
    }
  }

  /**
   * The filter works token by token: the result for `a + b` is the result
   * for `a` followed by the result for `b`.
   */
  lemma {:induction false} ParseTokensConcat(a: seq<string>, b: seq<string>)
    ensures ParseTokens(a + b) == ParseTokens(a) + ParseTokens(b)
  {
    if |a| == 0 {
      assert a + b == b;
    } else {
      assert (a + b)[0] == a[0];
      assert (a + b)[1..] == a[1..] + b;
      ParseTokensConcat(a[1..], b);
    }
  }

  /** A token that reads as a number is kept; any other token is dropped. */
  lemma ParseTokensSingle(t: string)
    ensures ParseTokens([t]) == if Reading(t).Some? then [Reading(t).value] else []
  {
    assert [t][1..] == [];
  }

  /** Nothing comes out exactly when no token reads as a number. */
  lemma {:induction false} ParseTokensEmpty(tokens: seq<string>)
    ensures ParseTokens(tokens) == [] <==> forall i :: 0 <= i < |tokens| ==> Reading(tokens[i]).None?
  {
    if |tokens| > 0 {
      assert forall i :: 1 <= i < |tokens| ==> tokens[i] == tokens[1..][i - 1];
      ParseTokensEmpty(tokens[1..]);
    }
  }

  /**
   * `thresholdsForType`: an override that is present and non-empty is split on
   * commas and parsed; otherwise (no row, an empty value, or a failed read) the
   * default table applies. An override none of whose tokens parses gives no
   * thresholds at all: the fallback is not taken.
   */
  function ThresholdsForType(override: Option<string>, eventType: string): (r: seq<int>)
    ensures !Present(override) ==> |r| >= 1 && forall i :: 0 <= i < |r| ==> 0 <= r[i] <= MaxThresholdMinutes
    ensures Present(override) ==> |r| <= |Split(override.value, ',')|
    ensures Present(override) ==> forall x :: x in r ==> exists tok :: tok in Split(override.value, ',') && Reading(tok) == Some(x)
  {
    if Present(override) then ParseTokens(Split(override.value, ','))
    else DefaultThresholds(eventType)
  }

  /** The override for a type in a settings table keyed by type. */
  function Override(settings: map<string, string>, eventType: string): (r: Option<string>)
    ensures r.Some? <==> eventType in settings
  {
    if eventType in settings then Some(settings[eventType]) else None
  }

  // ----------------------------------------------------------- properties

  /** Without a usable override the table applies, with `[60]` for unknown types. */
  lemma FallbackTable(eventType: string)
    ensures ThresholdsForType(None, eventType) == ThresholdsForType(Some(""), eventType)
    ensures ThresholdsForType(None, InUnit) == [30]
    ensures ThresholdsForType(None, InDepartment) == [60]
    ensures ThresholdsForType(None, Headquarters) == [60]
    ensures ThresholdsForType(None, OffSite) == [120, 60]
    ensures eventType !in EventTypes ==> ThresholdsForType(None, eventType) == [60]
  {
  }

  /** The settings string the settings screen stores for a list of minutes. */
  function SettingString(minutes: seq<nat>): string {
    Join(Spelled(minutes), ',')
  }

  function Spelled(minutes: seq<nat>): (r: seq<string>)
    ensures |r| == |minutes|
    ensures forall i :: 0 <= i < |r| ==> r[i] == NatToString(minutes[i])
  {
    if |minutes| == 0 then [] else [NatToString(minutes[0])] + Spelled(minutes[1..])
  }

  lemma NatSpellingHasNoComma(n: nat)
    ensures ',' !in NatToString(n)
  {
    var s := NatToString(n);
    assert forall i :: 0 <= i < |s| ==> s[i] != ',' by {
      assert forall i :: 0 <= i < |s| ==> IsDigit(s[i]);
    }
  }

  lemma NatSpellingParses(n: nat)
    ensures Reading(NatToString(n)) == Some(n as int)
  {
    var s := NatToString(n);
    DigitIsNotWhiteSpace(s[0]);
    DigitIsNotWhiteSpace(s[|s| - 1]);
    TrimOfUnpadded(s);
    ParseIntOfDigits(s);
  }

  lemma TrimOfUnpadded(s: string)
    requires |s| > 0 && !IsWhiteSpace(s[0]) && !IsWhiteSpace(s[|s| - 1])
    ensures Trim(s) == s
  {
    TrimStartKeeps(s);
  }

  /**
   * A stored list of minutes resolves to exactly that list, in order: what
   * the settings screen saves as `"120,60"` comes back as `[120, 60]`.
   */
  lemma OverrideRoundTrip(minutes: seq<nat>, eventType: string)
    requires |minutes| >= 1
    ensures ThresholdsForType(Some(SettingString(minutes)), eventType) == minutes
  {
    var toks := Spelled(minutes);
    var s := SettingString(minutes);
    SpelledHasNoComma(minutes);
    SplitJoin(toks, ',');
    SettingStringNonEmpty(minutes);
    assert ThresholdsForType(Some(s), eventType) == ParseTokens(toks);
    SpelledParses(minutes);
    ParseTokensKeepsAll(toks);
    SameEntries(ParseTokens(toks), minutes);
  }

  lemma SameEntries(r: seq<int>, minutes: seq<nat>)
    requires |r| == |minutes| && forall i :: 0 <= i < |r| ==> Some(r[i]) == Some(minutes[i] as int)
    ensures r == minutes
  {
    assert forall i :: 0 <= i < |r| ==> r[i] == minutes[i];
  }

  lemma SpelledHasNoComma(minutes: seq<nat>)
    ensures forall i :: 0 <= i < |minutes| ==> ',' !in Spelled(minutes)[i]
  {
    forall i | 0 <= i < |minutes| ensures ',' !in Spelled(minutes)[i] {
      NatSpellingHasNoComma(minutes[i]);
    }
  }

  lemma SpelledParses(minutes: seq<nat>)
    ensures forall i :: 0 <= i < |minutes| ==> Reading(Spelled(minutes)[i]) == Some(minutes[i] as int)
  {
    forall i | 0 <= i < |minutes| ensures Reading(Spelled(minutes)[i]) == Some(minutes[i] as int) {
      NatSpellingParses(minutes[i]);
    }
  }

  lemma SettingStringNonEmpty(minutes: seq<nat>)
    requires |minutes| >= 1
    ensures SettingString(minutes) != ""
  {
    var toks := Spelled(minutes);
    assert |toks[0]| >= 1;
    if |toks| > 1 {
      assert SettingString(minutes) == toks[0] + [','] + Join(toks[1..], ',');
    }
  }

  /**
   * A setting that `POST /api/notification-settings` accepts resolves to one
   * threshold per comma token, each within `[0, 1440]`: nothing is dropped.
   */
  lemma AcceptedSettingResolves(eventType: string, thresholds: string)
    requires CheckThresholdSetting(Some(eventType), Some(thresholds)) == None
    ensures var r := ThresholdsForType(Some(thresholds), eventType);
      && |r| == |Split(thresholds, ',')|
      && forall i :: 0 <= i < |r| ==> 0 <= r[i] <= MaxThresholdMinutes
  {
    var toks := Split(thresholds, ',');
    assert forall i :: 0 <= i < |toks| ==> TokenInRange(toks[i]) by {
      assert forall i :: 0 <= i < |toks| ==> toks[i] in toks;
    }
    ParseTokensKeepsAll(toks);
    var r := ParseTokens(toks);
    forall i | 0 <= i < |r| ensures 0 <= r[i] <= MaxThresholdMinutes {
      assert TokenInRange(toks[i]);
    }
  }

  /**
   * A non-empty override none of whose tokens reads as a number yields no
   * thresholds; the default table is NOT used in that case.
   */
  lemma UnreadableOverrideGivesNothing(override: string, eventType: string)
    requires override != ""
    requires forall tok :: tok in Split(override, ',') ==> Reading(tok).None?
    ensures ThresholdsForType(Some(override), eventType) == []
  {
    var toks := Split(override, ',');
    assert forall i :: 0 <= i < |toks| ==> toks[i] in toks;
    ParseTokensEmpty(toks);
  }

  lemma ParseExamples()
    ensures Reading("abc") == None
    ensures Reading("") == None
    ensures Reading("60") == Some(60)
  {
    ReadingOfAbc();
    assert "60" == NatToString(60);
    NatSpellingParses(60);
  }

  lemma ReadingOfAbc()
    ensures Reading("abc") == None
  {
    TrimOfUnpadded("abc");
    assert LeadingDigits("abc") == "";
  }

  lemma SplitAbcSixty()
    ensures Split("abc,60,", ',') == ["abc", "60", ""]
  {
    SplitSixty();
    assert "abc,60," == "abc" + [','] + "60,";
    SplitAtSeparator("abc", ',', "60,");
  }

  lemma SplitSixty()
    ensures Split("60,", ',') == ["60", ""]
  {
    assert "60," == "60" + [','] + "";
    SplitAtSeparator("60", ',', "");
    SplitNoSeparator("", ',');
  }

  lemma ParseAbcSixty()
    ensures ParseTokens(["abc", "60", ""]) == [60]
  {
    ParseExamples();
    var toks: seq<string> := ["abc", "60", ""];
    assert toks[1..] == ["60", ""] && toks[1..][1..] == [""];
    assert ParseTokens([""]) == [];
    assert ParseTokens(["60", ""]) == [60];
  }

  /**
   * `"abc,60,"` resolves to `[60]`: the unreadable and the empty token are
   * dropped. `"abc"` resolves to `[]`.
   */
  lemma OverrideExamples(eventType: string)
    ensures ThresholdsForType(Some("abc,60,"), eventType) == [60]
    ensures ThresholdsForType(Some("abc"), eventType) == []
  {
    OverrideAbcSixty(eventType);
    OverrideAbc(eventType);
  }

  lemma OverrideAbcSixty(eventType: string)
    ensures ThresholdsForType(Some("abc,60,"), eventType) == [60]
  {
    SplitAbcSixty();
    ParseAbcSixty();
  }

  lemma OverrideAbc(eventType: string)
    ensures ThresholdsForType(Some("abc"), eventType) == []
  {
    SplitNoSeparator("abc", ',');
    ReadingOfAbc();
    assert ParseTokens(["abc"]) == [];
  }

  /** `"10,20,30"` resolves to `[10, 20, 30]`. */
  lemma OverrideExample102030(eventType: string)
    ensures ThresholdsForType(Some("10,20,30"), eventType) == [10, 20, 30]
  {
    assert NatToString(10) == "10" && NatToString(20) == "20" && NatToString(30) == "30";
    assert SettingString([10, 20, 30]) == "10,20,30";
    OverrideRoundTrip([10, 20, 30], eventType);
  }

  /**
   * The default rows `GET /api/notification-settings` shows when its table
   * cannot be read resolve to exactly the fallback table.
   */
  lemma DefaultRowsMatchTable()
    ensures ThresholdsForType(Some("30"), InUnit) == ThresholdsForType(None, InUnit)
    ensures ThresholdsForType(Some("60"), InDepartment) == ThresholdsForType(None, InDepartment)
    ensures ThresholdsForType(Some("60"), Headquarters) == ThresholdsForType(None, Headquarters)
    ensures ThresholdsForType(Some("120,60"), OffSite) == ThresholdsForType(None, OffSite)
  {
    assert NatToString(30) == "30";
    assert NatToString(60) == "60";
    SingleRow(30, InUnit);
    SingleRow(60, InDepartment);
    SingleRow(60, Headquarters);
    OffSiteRow();
    FallbackTable(InUnit);
  }

  lemma SingleRow(n: nat, eventType: string)
    ensures ThresholdsForType(Some(NatToString(n)), eventType) == [n]
  {
    assert SettingString([n]) == NatToString(n);
    OverrideRoundTrip([n], eventType);
  }

  lemma OffSiteRow()
    ensures ThresholdsForType(Some("120,60"), OffSite) == [120, 60]
  {
    assert SettingString([120, 60]) == "120,60" by {
      assert NatToString(120) == "120" && NatToString(60) == "60";
      assert Spelled([120, 60]) == ["120", "60"];
    }
    OverrideRoundTrip([120, 60], OffSite);
  }
}
