/** Query states and events, as the engine adapters report them. */
module Queries {
  import opened Basics
  import opened Outcomes

  datatype Phase = Submitted | Running | ProducingResults | Completed | Cancelling | Cancelled | Failed

  predicate IsTerminal(phase: Phase) {
    phase.Completed? || phase.Failed? || phase.Cancelled?
  }

  datatype QueryEvent =
    | StateChange(phase: Phase)
    | EngineQueryId(id: string)
    | RowsProduced(rows: nat)
    | Progress(detail: string)
    | SessionProperties(properties: map<string, string>)

  predicate IsTerminalEvent(event: QueryEvent) {
    event.StateChange? && IsTerminal(event.phase)
  }

  /** How an adapter's execution ends. */
  datatype Finish = Finished | DriverCancelled | DriverFailed(message: string)

  /** The state the query service announces for that ending. */
  function FinalPhase(finish: Finish): Phase {
    match finish
    case Finished => Completed
    case DriverCancelled => Cancelled
    case DriverFailed(_) => Failed
  }

  // ---- what may be shown ----

  predicate Contains(text: string, part: string) {
    exists i :: 0 <= i <= |text| && part <= text[i..]
  }

  predicate IsSensitiveName(name: string) {
    var lower := Lower(name);
    || Contains(lower, "password") || Contains(lower, "token") || Contains(lower, "secret")
    || Contains(lower, "credential") || Contains(lower, "private_key")
  }

  const REDACTED := "<redacted>"

  /** An event as it enters the history: sensitive property values are replaced. */
  function Redacted(event: QueryEvent): (r: QueryEvent)
    ensures IsTerminalEvent(r) == IsTerminalEvent(event) && r.StateChange? == event.StateChange?
    ensures r.StateChange? ==> r == event
  {
    if event.SessionProperties? then
      SessionProperties(map name | name in event.properties ::
                          if IsSensitiveName(name) then REDACTED else event.properties[name])
    else event
  }

  /** No sensitive property value shows. */
  predicate IsDiscreet(event: QueryEvent) {
    event.SessionProperties? ==>
      forall name :: name in event.properties && IsSensitiveName(name) ==> event.properties[name] == REDACTED
  }

  lemma RedactedIsDiscreet(event: QueryEvent)
    ensures IsDiscreet(Redacted(event))
    ensures IsDiscreet(event) ==> Redacted(event) == event
  {
  }

  const SENSITIVE_WORDS := ["password", "token", "secret", "credential", "private_key"]

  /** Somewhere in `name`, in whatever letter case, stands `word`. */
  predicate Mentions(name: string, word: string) {
    exists i :: 0 <= i && i + |word| <= |name| && SpelledAt(name, i, word)
  }

  predicate SpelledAt(name: string, i: nat, word: string)
    requires i + |word| <= |name|
  {
    SameLetters(name[i..i + |word|], word)
  }

  lemma MentionsIsContains(name: string, word: string)
    requires Lower(word) == word
    ensures Mentions(name, word) <==> Contains(Lower(name), word)
  {
    forall i: nat | i + |word| <= |name| ensures SpelledAt(name, i, word) <==> word <= Lower(name)[i..] {
      LowerForgetsCase(name[i..i + |word|], word);
      assert Lower(name[i..i + |word|]) == Lower(name)[i..i + |word|];
      assert word <= Lower(name)[i..] <==> Lower(name)[i..][..|word|] == word;
      assert Lower(name)[i..][..|word|] == Lower(name)[i..i + |word|];
    }
    if Contains(Lower(name), word) {
      var i :| 0 <= i <= |Lower(name)| && word <= Lower(name)[i..];
      assert SpelledAt(name, i, word);
    }
    if Mentions(name, word) {
      var i :| 0 <= i && i + |word| <= |name| && SpelledAt(name, i, word);
      assert word <= Lower(name)[i..];
    }
  }

  lemma WordsAreLower()
    ensures forall k :: 0 <= k < |SENSITIVE_WORDS| ==> Lower(SENSITIVE_WORDS[k]) == SENSITIVE_WORDS[k]
  {
  }

  /** A property is hidden exactly if its name mentions one of the five words, in any letter case. */
  lemma SensitiveExactly(name: string)
    ensures IsSensitiveName(name) <==> exists k :: 0 <= k < |SENSITIVE_WORDS| && Mentions(name, SENSITIVE_WORDS[k])
  {
    WordsAreLower();
    forall k | 0 <= k < |SENSITIVE_WORDS| ensures Mentions(name, SENSITIVE_WORDS[k]) <==> Contains(Lower(name), SENSITIVE_WORDS[k]) {
      MentionsIsContains(name, SENSITIVE_WORDS[k]);
    }
    assert SENSITIVE_WORDS[0] == "password" && SENSITIVE_WORDS[1] == "token" && SENSITIVE_WORDS[2] == "secret";
    assert SENSITIVE_WORDS[3] == "credential" && SENSITIVE_WORDS[4] == "private_key";
  }
}
