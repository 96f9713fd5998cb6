/**
 * The text sensor: a fixed list of simulated messages, one of which is drawn
 * per scan, and the keyword rule that turns a message into an incident event
 * and a time penalty. Keywords are matched as case-sensitive substrings, and
 * the accident keywords are checked before the jam keywords.
 */
module TextSensor {

  /** The incident event a message is classified as. */
  datatype Event = CriticalAccident | Warning | Clear

  /** One scan's output: the message, its event and its penalty in seconds. */
  datatype Incident = Incident(message: string, event: Event, penalty: int)

  /**
   * The messages the sensor draws from; the list is fixed when the sensor
   * starts. Two entries are written as concatenations, which keeps the
   * substring proofs about them small; the texts are the messages themselves.
   */
  const SimulatedTweets: seq<string> := [
    "Stockholm traffic is moving smoothly.",
    "Lovely day in Norrmalm!",
    "ACCIDENT" + " reported near Central Station! Road blocked.",
    "Traffic is normal at Drottninggatan.",
    "Major JAM reported" + " due to construction work.",
    "Clear skies and clear roads in the city.",
    "CRITICAL: Multi-car collision near Kungsträdgården."
  ]

  const AccidentPenalty: int := 2000
  const WarningPenalty: int := 500

  /** `word` occurs in `text` starting at position `i`, character for character. */
  predicate OccursAt(text: string, word: string, i: int)
  {
    0 <= i && i + |word| <= |text| && forall j :: 0 <= j < |word| ==> text[i + j] == word[j]
  }

  /** `word` is a substring of `text` (case-sensitive). */
  predicate Contains(text: string, word: string)
  {
    exists i :: 0 <= i <= |text| && OccursAt(text, word, i)
  }

  predicate MentionsAccident(text: string)
  {
    Contains(text, "ACCIDENT") || Contains(text, "collision")
  }

  predicate MentionsJam(text: string)
  {
    Contains(text, "JAM") || Contains(text, "construction")
  }

  /** The keyword rule: accident keywords first, then jam keywords, otherwise clear. */
  function Classify(message: string): (r: (Event, int))
    ensures MentionsAccident(message) ==> r == (CriticalAccident, AccidentPenalty)
    ensures !MentionsAccident(message) && MentionsJam(message) ==> r == (Warning, WarningPenalty)
    ensures !MentionsAccident(message) && !MentionsJam(message) ==> r == (Clear, 0)
  {
    if MentionsAccident(message) then (CriticalAccident, AccidentPenalty)
    else if MentionsJam(message) then (Warning, WarningPenalty)
    else (Clear, 0)
  }

  /** One scan, with the random draw given as the index `choice` into the message list. */
  function LatestIncident(choice: nat): (r: Incident)
    requires choice < |SimulatedTweets|
    ensures r.message == SimulatedTweets[choice] && r.message in SimulatedTweets
    ensures (r.event, r.penalty) == Classify(r.message)
  {
    var message := SimulatedTweets[choice];
    var (event, penalty) := Classify(message);
    Incident(message, event, penalty)
  }

  /** The penalty is one of 0, 500 and 2000 seconds, so it is never negative. */
  lemma PenaltyIsBandValue(message: string)
    ensures var p := Classify(message).1; (p == 0 || p == WarningPenalty || p == AccidentPenalty) && p >= 0
  {
  }

  /** Event and penalty determine each other. */
  lemma EventMatchesPenalty(a: string, b: string)
    ensures Classify(a).0 == Classify(b).0 <==> Classify(a).1 == Classify(b).1
  {
  }

  /** A message with both kinds of keyword is an accident: the accident check comes first. */
  lemma AccidentOutranksJam(message: string)
    requires MentionsAccident(message) && MentionsJam(message)
    ensures Classify(message) == (CriticalAccident, AccidentPenalty)
  {
  }

  /** A word with a character that `text` lacks does not occur in `text`. */
  lemma MissingCharExcludes(text: string, word: string, k: int)
    requires 0 <= k < |word| && word[k] !in text
    ensures !Contains(text, word)
  {
  }

  /** A word whose first two characters never stand side by side in `text` does not occur in `text`. */
  lemma {:induction false} MissingPairExcludes(text: string, word: string)
    requires |word| >= 2
    requires forall i :: 0 <= i < |text| - 1 ==> !(text[i] == word[0] && text[i + 1] == word[1])
    ensures !Contains(text, word)
  {
    forall i | 0 <= i <= |text| ensures !OccursAt(text, word, i) {
      if i + |word| <= |text| {
        assert !(text[i + 0] == word[0] && text[i + 1] == word[1]);
      }
    }
  }

  /** Matching is case-sensitive: a lower-case "accident" is not the keyword "ACCIDENT". */
  lemma CaseSensitive()
    ensures Classify("accident on the bridge") == (Clear, 0)
  {
    var m := "accident on the bridge";
    MissingCharExcludes(m, "ACCIDENT", 0);
    MissingCharExcludes(m, "collision", 2);
    MissingCharExcludes(m, "JAM", 0);
    MissingCharExcludes(m, "construction", 6);
  }

  /** How many of the first `n` messages of `messages` carry `penalty`. */
  function CountWithPenalty(messages: seq<string>, penalty: int, n: nat): (c: nat)
    requires n <= |messages|
    ensures c <= n
  {
    if n == 0 then 0
    else CountWithPenalty(messages, penalty, n - 1) + (if Classify(messages[n - 1]).1 == penalty then 1 else 0)
  }

  /** "Stockholm traffic is moving smoothly." is clear. */
  lemma Tweet0IsClear()
    ensures Classify(SimulatedTweets[0]) == (Clear, 0)
  {
    var m := SimulatedTweets[0];
    MissingCharExcludes(m, "ACCIDENT", 0);
    MissingPairExcludes(m, "collision");
    MissingCharExcludes(m, "JAM", 0);
    MissingPairExcludes(m, "construction");
  }

  /** "Lovely day in Norrmalm!" is clear. */
  lemma Tweet1IsClear()
    ensures Classify(SimulatedTweets[1]) == (Clear, 0)
  {
    var m := SimulatedTweets[1];
    MissingCharExcludes(m, "ACCIDENT", 0);
    MissingCharExcludes(m, "collision", 0);
    MissingCharExcludes(m, "JAM", 0);
    MissingCharExcludes(m, "construction", 0);
  }

  /** "ACCIDENT reported near Central Station! Road blocked." is an accident. */
  lemma Tweet2IsAccident()
    ensures Classify(SimulatedTweets[2]) == (CriticalAccident, AccidentPenalty)
  {
    assert OccursAt(SimulatedTweets[2], "ACCIDENT", 0);
  }

  /** "Traffic is normal at Drottninggatan." is clear. */
  lemma Tweet3IsClear()
    ensures Classify(SimulatedTweets[3]) == (Clear, 0)
  {
    var m := SimulatedTweets[3];
    MissingCharExcludes(m, "ACCIDENT", 0);
    MissingPairExcludes(m, "collision");
    MissingCharExcludes(m, "JAM", 0);
    MissingPairExcludes(m, "construction");
  }

  /** The fifth message has no accident keyword: it lacks the letters 'C' and 'l'. */
  lemma Tweet4HasNoAccidentKeyword()
    ensures !Contains(SimulatedTweets[4], "ACCIDENT")
    ensures !Contains(SimulatedTweets[4], "collision")
  {
    MissingCharExcludes(SimulatedTweets[4], "ACCIDENT", 1);
    MissingCharExcludes(SimulatedTweets[4], "collision", 2);
  }

  /** "Major JAM reported due to construction work." is a warning. */
  lemma Tweet4IsWarning()
    ensures Classify(SimulatedTweets[4]) == (Warning, WarningPenalty)
  {
    Tweet4HasNoAccidentKeyword();
    assert OccursAt(SimulatedTweets[4], "JAM", 6);
  }

  /** "Clear skies and clear roads in the city." is clear. */
  lemma Tweet5IsClear()
    ensures Classify(SimulatedTweets[5]) == (Clear, 0)
  {
    var m := SimulatedTweets[5];
    MissingCharExcludes(m, "ACCIDENT", 0);
    MissingPairExcludes(m, "collision");
    MissingCharExcludes(m, "JAM", 0);
    MissingPairExcludes(m, "construction");
  }

  /** "CRITICAL: Multi-car collision near Kungsträdgården." is an accident. */
  lemma Tweet6IsAccident()
    ensures Classify(SimulatedTweets[6]) == (CriticalAccident, AccidentPenalty)
  {
    assert OccursAt(SimulatedTweets[6], "collision", 20);
  }

  /** Of the seven simulated messages, two are accidents, one is a warning and four are clear. */
  lemma TweetCensus()
    ensures |SimulatedTweets| == 7
    ensures CountWithPenalty(SimulatedTweets, AccidentPenalty, 7) == 2
    ensures CountWithPenalty(SimulatedTweets, WarningPenalty, 7) == 1
    ensures CountWithPenalty(SimulatedTweets, 0, 7) == 4
  {
    Tweet0IsClear();
    Tweet1IsClear();
    Tweet2IsAccident();
    Tweet3IsClear();
    Tweet4IsWarning();
    Tweet5IsClear();
    Tweet6IsAccident();
    var t := SimulatedTweets;
    assert CountWithPenalty(t, AccidentPenalty, 2) == 0 && CountWithPenalty(t, AccidentPenalty, 4) == 1;
    assert CountWithPenalty(t, AccidentPenalty, 6) == 1;
    assert CountWithPenalty(t, WarningPenalty, 2) == 0 && CountWithPenalty(t, WarningPenalty, 4) == 0;
    assert CountWithPenalty(t, WarningPenalty, 6) == 1;
    assert CountWithPenalty(t, 0, 2) == 2 && CountWithPenalty(t, 0, 4) == 3 && CountWithPenalty(t, 0, 6) == 4;
  }
}
