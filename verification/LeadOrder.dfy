/** The order of the LEAD answers leaves nothing open. */
module LeadOrder {
  import opened VoiceCost
  import opened VoiceLead

  /** Of the two, `a` has at position i the same answer or a better one. */
  lemma NotWorse(q: Query, k: nat, a: seq<Voicing>, b: seq<Voicing>, i: nat)
    requires q.root < 12 && q.voices > 0 && TopChoices(q, k, a) && TopChoices(q, k, b)
    requires i < |b| && i <= |a| && a[..i] == b[..i]
    ensures i < |a| && (a[i] == b[i] || Better(q, a[i], b[i]))
  {
    forall j | 0 <= j < i ensures a[j] != b[i] {
      assert a[j] == a[..i][j] == b[..i][j] == b[j];
      NotBetterThanItself(q, b[i]);
    }
    if b[i] in a {
      var j :| 0 <= j < |a| && a[j] == b[i];
      assert i <= j;
    } else {
      assert IsChoice(q, b[i]) && |a| == k;
    }
  }

  lemma NeitherBetter(q: Query, v: Voicing, w: Voicing)
    requires q.root < 12 && v != [] && w != [] && (v == w || Better(q, v, w)) && (w == v || Better(q, w, v))
    ensures v == w
  {
    if v != w {
      BetterTransitive(q, v, w, v);
      NotBetterThanItself(q, v);
    }
  }

  lemma {:induction false} SamePrefix(q: Query, k: nat, a: seq<Voicing>, b: seq<Voicing>, i: nat)
    requires q.root < 12 && q.voices > 0 && TopChoices(q, k, a) && TopChoices(q, k, b) && i <= |a|
    ensures i <= |b| && a[..i] == b[..i]
  {
    if i > 0 {
      SamePrefix(q, k, a, b, i - 1);
      NotWorse(q, k, b, a, i - 1);
      NotWorse(q, k, a, b, i - 1);
      assert IsChoice(q, a[i - 1]) && IsChoice(q, b[i - 1]);
      NeitherBetter(q, a[i - 1], b[i - 1]);
      assert a[..i] == a[..i - 1] + [a[i - 1]] && b[..i] == b[..i - 1] + [b[i - 1]];
    }
  }

  /** Only one list is the top of the choices: the search has one answer. */
  lemma AnswersUnique(q: Query, k: nat, a: seq<Voicing>, b: seq<Voicing>)
    requires q.root < 12 && q.voices > 0 && TopChoices(q, k, a) && TopChoices(q, k, b)
    ensures a == b
  {
    SamePrefix(q, k, a, b, |a|);
    SamePrefix(q, k, b, a, |b|);
    assert a == a[..|a|] && b == b[..|b|];
  }
}
