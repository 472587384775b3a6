/** CHORDS FACTORY's chord types (chords.c, `ch_types`). */
module ChordTypes {

  const VOICES := 4
  const LEAD_MAX := 8
  const NOTE_MAX := 127

  /** The pitch classes of each type above its root. */
  const TYPES: seq<seq<nat>> := [
    [0, 4, 7], [0, 3, 7], [0, 4, 7, 10], [0, 4, 7, 11], [0, 3, 7, 10], [0, 3, 6, 10], [0, 3, 6],
    [0, 3, 6, 9], [0, 4, 8], [0, 2, 7], [0, 5, 7], [0, 5, 7, 10], [0, 4, 7, 9], [0, 3, 7, 9],
    [0, 2, 4, 7], [0, 2, 3, 7], [0, 3, 7, 11], [0, 2, 4, 10], [0, 2, 3, 10], [0, 2, 4, 11], [0, 7]]

  /** Two to four pitch classes from the root's own, in ascending order within the octave. */
  predicate WellFormed(t: seq<nat>) {
    && 2 <= |t| <= VOICES && t[0] == 0
    && (forall i | 0 <= i < |t| :: t[i] < 12)
    && forall i, j | 0 <= i < j < |t| :: t[i] < t[j]
  }

  lemma TypesWellFormed(t: nat)
    requires t < |TYPES|
    ensures WellFormed(TYPES[t])
  {
  }

  /** The pitch classes of the chord on `root`. */
  function Classes(root: nat, t: seq<nat>): (s: set<nat>) {
    set k | k in t :: (root + k) % 12
  }

  lemma {:induction false} Fewer<T>(s: set<T>, t: set<T>)
    requires s <= t
    ensures |s| <= |t|
  {
    if s != {} {
      var x :| x in s;
      Fewer(s - {x}, t - {x});
    }
  }

  lemma {:induction false} ClassesBounded(root: nat, t: seq<nat>)
    ensures |Classes(root, t)| <= |t|
    ensures forall p | p in Classes(root, t) :: p < 12
  {
    if t != [] {
      var init := t[..|t| - 1];
      ClassesBounded(root, init);
      assert t == init + [t[|t| - 1]];
      assert Classes(root, t) <= Classes(root, init) + {(root + t[|t| - 1]) % 12};
      assert |Classes(root, t)| <= |Classes(root, init) + {(root + t[|t| - 1]) % 12}| by {
        Fewer(Classes(root, t), Classes(root, init) + {(root + t[|t| - 1]) % 12});
      }
    }
  }
}
