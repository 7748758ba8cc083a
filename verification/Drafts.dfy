/**
 Two greedy character budgets: the timeline of a postmortem draft, and the log messages of an analysis context.
 */
module Drafts {
  import opened Integers
  import Markdown

  const TIMELINE_BUDGET: int := 60_000
  const FETCHED_EVENTS: nat := 1000
  const LOG_BUDGET: int := 100_000
  const MESSAGE_CAP: int := 8192

  const OMITTED: string :=
    "- Additional timeline " + "content omitted from this draft. Review the full incident timeline."

  // ---------------------------------------------------------------- the timeline

  /** The length of the lines joined by newlines. */
  function JoinedLength(lines: seq<string>): nat {
    if lines == [] then 0
    else if |lines| == 1 then |lines[0]|
    else JoinedLength(lines[..|lines| - 1]) + 1 + |lines[|lines| - 1]|
  }

  lemma {:induction false} JoinLast(lines: seq<string>, last: string)
    ensures lines != [] ==> Markdown.Join(lines + [last]) == Markdown.Join(lines) + "\n" + last
  {
    if |lines| == 1 {
      assert (lines + [last])[1..] == [last];
    } else if lines != [] {
      assert (lines + [last])[1..] == lines[1..] + [last];
      JoinLast(lines[1..], last);
      assert lines[0] + "\n" + (Markdown.Join(lines[1..]) + "\n" + last)
          == lines[0] + "\n" + Markdown.Join(lines[1..]) + "\n" + last;
    }
  }

  /** It is the length of the text that the joined lines make. */
  lemma {:induction false} JoinedLengthIsLength(lines: seq<string>)
    ensures JoinedLength(lines) == |Markdown.Join(lines)|
  {
    if |lines| > 1 {
      JoinedLengthIsLength(lines[..|lines| - 1]);
      JoinLast(lines[..|lines| - 1], lines[|lines| - 1]);
      assert lines[..|lines| - 1] + [lines[|lines| - 1]] == lines;
    }
  }

  predicate FitsBudget(lines: seq<string>) {
    JoinedLength(lines) <= TIMELINE_BUDGET
  }

  lemma JoinOneMore(lines: seq<string>, n: nat)
    requires n < |lines|
    ensures JoinedLength(lines[..n + 1]) == JoinedLength(lines[..n]) + |lines[n]| + if n == 0 then 0 else 1
  {
    assert lines[..n + 1][..n] == lines[..n];
  }

  lemma {:induction false} LongerJoinsLonger(lines: seq<string>, m: nat, n: nat)
    requires m <= n <= |lines|
    ensures JoinedLength(lines[..m]) <= JoinedLength(lines[..n])
  {
    if m < n {
      JoinOneMore(lines, n - 1);
      LongerJoinsLonger(lines, m, n - 1);
    }
  }

  /** k is the number of lines of the longest prefix that fits. */
  ghost predicate LongestFit(lines: seq<string>, k: nat) {
    k <= |lines| && FitsBudget(lines[..k]) && forall n | k < n <= |lines| :: !FitsBudget(lines[..n])
  }

  /**
   Exactly the longest prefix whose newline-join fits 60000 characters, followed by the omission line if and only if
   one of the lines was dropped.
   */
  ghost predicate IsSection(lines: seq<string>, kept: seq<string>) {
    exists k: nat :: LongestFit(lines, k) && kept == lines[..k] + if k < |lines| then [OMITTED] else []
  }

  /** The timeline section over the fetched lines. */
  method TimelineLines(lines: seq<string>) returns (kept: seq<string>)
    ensures IsSection(lines, kept)
  {
    kept := [];
    var remaining := TIMELINE_BUDGET;
    var i := 0;
    while i < |lines|
      invariant i <= |lines| && kept == lines[..i]
      invariant FitsBudget(lines[..i])
      invariant remaining == TIMELINE_BUDGET - JoinedLength(lines[..i]) - if i == 0 then 0 else 1
    {
      JoinOneMore(lines, i);
      if |lines[i]| > remaining {
        kept := kept + [OMITTED];
        forall n | i < n <= |lines| ensures !FitsBudget(lines[..n]) {
          LongerJoinsLonger(lines, i + 1, n);
        }
        assert LongestFit(lines, i);
        return;
      }
      kept := kept + [lines[i]];
      remaining := remaining - (|lines[i]| + 1);
      i := i + 1;
    }
    assert LongestFit(lines, i) && kept + [] == lines[..i];
  }

  /** The query is ordered by time and stops at 1000 events. */
  function Fetched(all: seq<string>): seq<string> {
    if |all| <= FETCHED_EVENTS then all else all[..FETCHED_EVENTS]
  }

  /** The start of `- <instant>: <message>`; an instant in ISO format starts with a digit. */
  predicate IsEventLine(line: string) {
    |line| >= 3 && line[..2] == "- " && '0' <= line[2] <= '9'
  }

  ghost predicate EventLines(lines: seq<string>) {
    forall i | 0 <= i < |lines| :: IsEventLine(lines[i])
  }

  lemma OmittedIsNoEvent(lines: seq<string>)
    requires EventLines(lines)
    ensures OMITTED !in lines
  {
    assert OMITTED[2] == 'A';
  }

  /** The omission line tells whether a fetched line was dropped. */
  lemma OmissionTells(lines: seq<string>, kept: seq<string>)
    requires IsSection(lines, kept) && EventLines(lines)
    ensures OMITTED !in kept <==> FitsBudget(lines)
    ensures FitsBudget(lines) ==> kept == lines
  {
    var k: nat :| LongestFit(lines, k) && kept == lines[..k] + if k < |lines| then [OMITTED] else [];
    assert lines[..|lines|] == lines;
    OmittedIsNoEvent(lines);
    if k < |lines| {
      assert kept[k] == OMITTED;
      assert !FitsBudget(lines[..|lines|]);
    } else {
      assert kept == lines;
    }
  }

  /**
   The omission line stands for the fetched lines only. Events are missing from the section without it exactly when
   there are more than 1000 and the first 1000 fit.
   */
  lemma SilentOmissionExactly(all: seq<string>, kept: seq<string>)
    requires EventLines(all) && IsSection(Fetched(all), kept)
    ensures |kept| < |all| && OMITTED !in kept <==> |all| > FETCHED_EVENTS && FitsBudget(all[..FETCHED_EVENTS])
    ensures |all| > FETCHED_EVENTS && FitsBudget(all[..FETCHED_EVENTS]) ==> kept == all[..FETCHED_EVENTS]
  {
    OmissionTells(Fetched(all), kept);
  }

  /** `- <instant>: <message>` */
  function EventLine(instant: string, message: string): string {
    "- " + instant + ": " + message
  }

  /** At most `2026-01-01T00:00:00.000001+00:00`. */
  predicate IsInstant(s: string) {
    1 <= |s| <= 32 && '0' <= s[0] <= '9'
  }

  /** The event every incident starts with. */
  function CreatedMessage(source: string): string {
    "Incident created from " + source + "."
  }

  const MAX_SOURCE: nat := 32

  /** After the created event, 999 lines with notes of at most 22 characters fit; with 23 they do not. */
  const SHORT_NOTE: nat := 22

  lemma {:induction false} FirstAndRest(lines: seq<string>, first: nat, rest: nat)
    requires lines != [] && |lines[0]| <= first && forall i | 1 <= i < |lines| :: |lines[i]| <= rest
    ensures JoinedLength(lines) <= first + (|lines| - 1) * (rest + 1)
  {
    if |lines| > 1 {
      FirstAndRest(lines[..|lines| - 1], first, rest);
    }
  }

  /**
   An incident with 1000 or more short notes by an operator and nothing else: from the 1001st event on they are
   missing, and nothing says so.
   */
  lemma ShortNotesGoMissing(
    source: string, instants: seq<string>, notes: seq<string>, all: seq<string>, kept: seq<string>)
    requires |instants| == |notes| == |all| > FETCHED_EVENTS && 1 <= |source| <= MAX_SOURCE
    requires notes[0] == CreatedMessage(source) && forall i | 1 <= i < |all| :: 1 <= |notes[i]| <= SHORT_NOTE
    requires forall i | 0 <= i < |all| :: IsInstant(instants[i]) && all[i] == EventLine(instants[i], notes[i])
    requires IsSection(Fetched(all), kept)
    ensures OMITTED !in kept && kept == all[..FETCHED_EVENTS]
  {
    forall i | 0 <= i < |all| ensures IsEventLine(all[i]) && |all[i]| <= 36 + |notes[i]| {
      assert all[i][2] == instants[i][0] && all[i][..2] == "- ";
    }
    assert |notes[0]| <= 23 + MAX_SOURCE;
    FirstAndRest(all[..FETCHED_EVENTS], 59 + MAX_SOURCE, 36 + SHORT_NOTE);
    SilentOmissionExactly(all, kept);
  }

  /** With notes of one character more, at instants with microseconds, the omission line is there. */
  lemma LongerNotesAreAnnounced(
    source: string, instants: seq<string>, notes: seq<string>, all: seq<string>, kept: seq<string>)
    requires |instants| == |notes| == |all| > FETCHED_EVENTS && |source| >= 2
    requires notes[0] == CreatedMessage(source) && forall i | 1 <= i < |all| :: |notes[i]| > SHORT_NOTE
    requires forall i | 0 <= i < |all| ::
               IsInstant(instants[i]) && |instants[i]| == 32 && all[i] == EventLine(instants[i], notes[i])
    requires IsSection(Fetched(all), kept)
    ensures OMITTED in kept
  {
    forall i | 0 <= i < |all| ensures IsEventLine(all[i]) && |all[i]| == 36 + |notes[i]| {
      assert all[i][2] == instants[i][0] && all[i][..2] == "- ";
    }
    FirstAndRestLeast(all[..FETCHED_EVENTS], 36 + |notes[0]|, 37 + SHORT_NOTE);
    SilentOmissionExactly(all, kept);
  }

  lemma {:induction false} FirstAndRestLeast(lines: seq<string>, first: nat, rest: nat)
    requires lines != [] && first <= |lines[0]| && forall i | 1 <= i < |lines| :: rest <= |lines[i]|
    ensures first + (|lines| - 1) * (rest + 1) <= JoinedLength(lines)
  {
    if |lines| > 1 {
      FirstAndRestLeast(lines[..|lines| - 1], first, rest);
    }
  }

  /** With lines of 60 characters or more, the events beyond the fetched ones are never missing silently. */
  lemma LongerEventsAreAnnounced(all: seq<string>, kept: seq<string>)
    requires |all| > FETCHED_EVENTS && EventLines(all) && IsSection(Fetched(all), kept)
    requires forall i | 0 <= i < FETCHED_EVENTS :: |all[i]| >= 60
    ensures OMITTED in kept
  {
    FirstAndRestLeast(all[..FETCHED_EVENTS], 60, 60);
    SilentOmissionExactly(all, kept);
  }

  // ---------------------------------------------------------------- the log messages

  /** What the messages would cost if each were only cut to the per-message cap. */
  function Demand(messages: seq<string>): nat {
    if messages == [] then 0
    else Demand(messages[..|messages| - 1]) + Min(|messages[|messages| - 1]|, 8192)
  }

  function Total(messages: seq<string>): nat {
    if messages == [] then 0 else Total(messages[..|messages| - 1]) + |messages[|messages| - 1]|
  }

  function Reverse(s: seq<string>): seq<string> {
    if s == [] then [] else [s[|s| - 1]] + Reverse(s[..|s| - 1])
  }

  lemma {:induction false} ReverseAt(s: seq<string>, i: nat)
    requires i < |s|
    ensures |Reverse(s)| == |s| && Reverse(s)[|s| - 1 - i] == s[i]
  {
    ReverseLength(s[..|s| - 1]);
    if i < |s| - 1 {
      ReverseAt(s[..|s| - 1], i);
    }
  }

  lemma {:induction false} ReverseLength(s: seq<string>)
    ensures |Reverse(s)| == |s|
  {
    if s != [] {
      ReverseLength(s[..|s| - 1]);
    }
  }

  lemma {:induction false} TotalJoin(a: seq<string>, b: seq<string>)
    ensures Total(a + b) == Total(a) + Total(b)
  {
    if b == [] {
      assert a + b == a;
    } else {
      assert (a + b)[..|a + b| - 1] == a + b[..|b| - 1];
      TotalJoin(a, b[..|b| - 1]);
    }
  }

  lemma {:induction false} ReverseTotal(s: seq<string>)
    ensures Total(Reverse(s)) == Total(s)
  {
    if s != [] {
      ReverseTotal(s[..|s| - 1]);
      TotalJoin([s[|s| - 1]], Reverse(s[..|s| - 1]));
      assert [s[|s| - 1]][..0] == [];
    }
  }

  ghost predicate IsPrefixOf(part: string, whole: string) {
    part <= whole
  }

  /** The kept messages: all but the last cut only by the cap, the last one perhaps by the budget. */
  ghost predicate Kept(messages: seq<string>, kept: seq<string>) {
    && |kept| <= |messages|
    && (forall i | 0 <= i < |kept| :: IsPrefixOf(kept[i], messages[i]) && |kept[i]| <= MESSAGE_CAP)
    && (forall i | 0 <= i < |kept| - 1 :: |kept[i]| == Min(|messages[i]|, MESSAGE_CAP))
  }

  lemma {:induction false} DemandGrows(messages: seq<string>, m: nat, n: nat)
    requires m <= n <= |messages|
    ensures Demand(messages[..m]) <= Demand(messages[..n])
  {
    if m < n {
      assert messages[..n][..n - 1] == messages[..n - 1];
      DemandGrows(messages, m, n - 1);
    }
  }

  /** One more message, cut to what is left of the budget. */
  lemma OneMoreMessage(messages: seq<string>, log: seq<string>, message: string)
    requires |log| < |messages| && Kept(messages, log) && message <= messages[|log|] && |message| <= MESSAGE_CAP
    requires forall j | 0 <= j < |log| :: |log[j]| == Min(|messages[j]|, MESSAGE_CAP)
    ensures Kept(messages, log + [message])
    ensures Total(log + [message]) == Total(log) + |message|
    ensures Demand(messages[..|log| + 1]) == Demand(messages[..|log|]) + Min(|messages[|log|]|, MESSAGE_CAP)
  {
    assert (log + [message])[..|log|] == log;
    assert messages[..|log| + 1][..|log|] == messages[..|log|];
  }

  /**
   The fetched messages, newest first, are taken while budget is left, and shown oldest first. What is shown costs
   exactly the demand of all of them or the whole budget, whichever is less.
   */
  method LogContext(messages: seq<string>) returns (shown: seq<string>)
    ensures |shown| <= |messages|
    ensures forall i | 0 <= i < |shown| :: IsPrefixOf(shown[|shown| - 1 - i], messages[i])
    ensures forall i | 0 <= i < |shown| - 1 :: |shown[|shown| - 1 - i]| == Min(|messages[i]|, 8192)
    ensures shown != [] ==> |shown[0]| <= 8192
    ensures Total(shown) == Min(Demand(messages), 100_000)
    ensures |shown| < |messages| ==> Total(shown) == 100_000
  {
    var remaining := LOG_BUDGET;
    var log: seq<string> := [];
    var i := 0;
    while i < |messages|
      invariant i == |log| <= |messages|
      invariant 0 <= remaining
      invariant Kept(messages, log)
      invariant Total(log) == LOG_BUDGET - remaining == Min(Demand(messages[..i]), LOG_BUDGET)
      invariant remaining > 0 ==> forall j | 0 <= j < i :: |log[j]| == Min(|messages[j]|, MESSAGE_CAP)
    {
      if remaining <= 0 {
        break;
      }
      var message := messages[i][..Min(|messages[i]|, Min(MESSAGE_CAP, remaining))];
      OneMoreMessage(messages, log, message);
      remaining := remaining - |message|;
      log := log + [message];
      i := i + 1;
    }
    DemandGrows(messages, i, |messages|);
    assert messages[..|messages|] == messages;
    ReverseLength(log);
    ReverseTotal(log);
    forall i | 0 <= i < |log| ensures Reverse(log)[|log| - 1 - i] == log[i] {
      ReverseAt(log, i);
    }
    return Reverse(log);
  }
}
