/** The usage statistics kept by `PromptAnalytics`: a prompt counter, a running
    improvement score, and the style and category of the latest prompt. */
module Analytics {

  datatype Stats = Stats(totalPrompts: int, averageImprovement: int, mostUsedStyle: string, mostUsedCategory: string)

  /** The statistics before anything is tracked. */
  const InitialStats := Stats(0, 0, "simple", "general")

  /** `Math.round(n / 2)` for an integer `n`: halves round up (towards positive
      infinity, also for negative `n`). */
  function HalfRounded(n: int): (r: int)
    ensures 2 * r == n || 2 * r == n + 1
  {
    (n + 1) / 2
  }

  /** `trackPrompt`: one more prompt; the score moves halfway to the new improvement;
      the style and category are those of this prompt (the latest, not the most
      frequent). */
  function TrackPrompt(s: Stats, style: string, category: string, improvement: int): Stats
  {
    Stats(s.totalPrompts + 1, HalfRounded(s.averageImprovement + improvement), style, category)
  }

  /** The counter goes up by one, the style and category are the latest arguments, and
      the new score lies between the old score and the new improvement. */
  lemma {:induction false} TrackPromptSpec(s: Stats, style: string, category: string, improvement: int)
    ensures var r := TrackPrompt(s, style, category, improvement);
            r.totalPrompts == s.totalPrompts + 1
            && r.mostUsedStyle == style && r.mostUsedCategory == category
            && (s.averageImprovement <= improvement ==> s.averageImprovement <= r.averageImprovement <= improvement)
            && (improvement <= s.averageImprovement ==> improvement <= r.averageImprovement <= s.averageImprovement)
  {
  }

  /** Tracking an improvement equal to the current score leaves the score as it is. */
  lemma {:induction false} TrackFixedPoint(s: Stats, style: string, category: string)
    ensures TrackPrompt(s, style, category, s.averageImprovement).averageImprovement == s.averageImprovement
  {
  }

  /** One tracked prompt: its style, category and improvement score. */
  datatype Event = Event(style: string, category: string, improvement: int)

  /** Tracking a run of prompts in order. */
  function TrackAll(s: Stats, events: seq<Event>): Stats
    decreases |events|
  {
    if |events| == 0 then s
    else TrackAll(TrackPrompt(s, events[0].style, events[0].category, events[0].improvement), events[1..])
  }

  /** After a run of prompts the counter has grown by their number, the style and
      category are those of the last prompt, and the score stays within any range that
      holds the starting score and every tracked improvement. */
  lemma {:induction false} TrackAllSpec(s: Stats, events: seq<Event>, lo: int, hi: int)
    requires lo <= s.averageImprovement <= hi
    requires forall k :: 0 <= k < |events| ==> lo <= events[k].improvement <= hi
    ensures var r := TrackAll(s, events);
            r.totalPrompts == s.totalPrompts + |events|
            && lo <= r.averageImprovement <= hi
            && (|events| > 0 ==> r.mostUsedStyle == events[|events| - 1].style
                                 && r.mostUsedCategory == events[|events| - 1].category)
    decreases |events|
  {
    if |events| > 0 {
      var e := events[0];
      var next := TrackPrompt(s, e.style, e.category, e.improvement);
      TrackPromptSpec(s, e.style, e.category, e.improvement);
      assert forall k :: 0 <= k < |events[1..]| ==> events[1..][k] == events[k + 1];
      TrackAllSpec(next, events[1..], lo, hi);
      if |events| > 1 {
        assert events[1..][|events[1..]| - 1] == events[|events| - 1];
      }
    }
  }
}
