/**
  What the Embedding Cache decides over a run: a text reaches the provider only if it
  is neither cached when the run starts nor seen earlier in the run. NewTexts lists those
  texts in the order of their first occurrence.
 */
module Dedup {
  import opened Sequences

  /** The texts of ts that are not in known and not earlier in ts, in first-occurrence order. */
  function NewTexts(ts: seq<string>, known: set<string>): seq<string>
    decreases |ts|
  {
    if ts == [] then []
    else
      var init, t := ts[..|ts| - 1], ts[|ts| - 1];
      NewTexts(init, known) + (if t in known || t in init then [] else [t])
  }

  /** One single-text request per text, as the provider is called. */
  function Singletons(ts: seq<string>): seq<seq<string>>
  {
    seq(|ts|, j requires 0 <= j < |ts| => [ts[j]])
  }

  lemma NewTextsSnoc(ts: seq<string>, t: string, known: set<string>)
    ensures NewTexts(ts + [t], known) == NewTexts(ts, known) + (if t in known || t in ts then [] else [t])
  {
    assert (ts + [t])[..|ts|] == ts;
  }

  /** NewTexts holds each unseen text of ts once, and nothing else. */
  lemma {:induction false} NewTextsMembers(ts: seq<string>, known: set<string>)
    ensures forall t :: t in NewTexts(ts, known) <==> t in ts && t !in known
    ensures NoDuplicates(NewTexts(ts, known))
  {
    if ts != [] {
      var init, t := ts[..|ts| - 1], ts[|ts| - 1];
      NewTextsMembers(init, known);
      assert ts == init + [t];
    }
  }

  /** Processing a then b: b contributes the texts unseen after a. */
  lemma {:induction false} NewTextsAppend(a: seq<string>, b: seq<string>, known: set<string>)
    ensures NewTexts(a + b, known) == NewTexts(a, known) + NewTexts(b, known + Distinct(a))
  {
    if b == [] {
      assert a + b == a;
    } else {
      var init, t := b[..|b| - 1], b[|b| - 1];
      NewTextsAppend(a, init, known);
      assert a + b == (a + init) + [t];
      NewTextsSnoc(a + init, t, known);
      NewTextsSnoc(init, t, known + Distinct(a));
      assert b == init + [t];
    }
  }

  /** The number of provider calls is the number of distinct texts not already cached. */
  lemma CallCount(ts: seq<string>, known: set<string>)
    ensures |NewTexts(ts, known)| == |Distinct(ts) - known|
  {
    NewTextsMembers(ts, known);
    NoDuplicatesCardinality(NewTexts(ts, known));
    assert Distinct(NewTexts(ts, known)) == Distinct(ts) - known;
  }

  lemma SingletonsAppend(a: seq<string>, b: seq<string>)
    ensures Singletons(a + b) == Singletons(a) + Singletons(b)
  {
  }

  /** A call log after one more text: one more single-text request, unless the text was a hit. */
  lemma LogSnoc(log: seq<seq<string>>, sent: seq<string>, t: string, hit: bool)
    ensures log + Singletons(sent) + (if hit then [] else [[t]]) == log + Singletons(if hit then sent else sent + [t])
  {
    if !hit {
      SingletonsAppend(sent, [t]);
      assert Singletons([t]) == [[t]];
      AppendAssoc(log, Singletons(sent), [[t]]);
    }
  }
}
