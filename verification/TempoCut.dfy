/** How little of a take is cut (freeloop.h, the tempo of a free take): by under one
    part in tempo24, strictly. */
module TempoCut {
  import opened Words
  import opened TempoSolver

  /** Twice the samples of a step, in 1/24 BPM. */
  const STEP_X2 := 31752000

  // ---- what a tie would be ---------------------------------------------------------

  /** Two neighbouring tempos `h - 1` and `h` whose loops leave room for a cut of
      exactly one part in h: the samples then have one form. */
  lemma TieForm(x: nat, h: nat, loop: nat, slower: nat, d: nat, hd: nat)
    requires h > 1 && loop + d < slower && hd == h * d == loop + d
    requires slower * (h - 1) <= x + (h - 1) / 2 && x + h / 2 < loop * h + h
    ensures h % 2 == 1 && 2 * x == (h - 1) * (2 * hd + 1)
  {
    MulLe(loop + d + 1, slower, h - 1);
    assert (loop + d + 1) * (h - 1) == loop * h + (hd - loop - d) + h - 1;
    assert loop == (h - 1) * d;
    assert loop * h == (h - 1) * hd;
  }

  /** An odd factor takes no part of a power of two. */
  lemma OddFactor(m: nat, r: nat, z: nat)
    requires m * (2 * r + 1) == 2 * z
    ensures m % 2 == 0 && (m / 2) * (2 * r + 1) == z
  {
    assert m == 2 * (z - m * r);
    assert 2 * ((m / 2) * (2 * r + 1)) == m * (2 * r + 1);
  }

  lemma ThirtyTwo(m: nat, r: nat, z: nat)
    requires m * (2 * r + 1) == 32 * z
    ensures m % 32 == 0 && (m / 32) * (2 * r + 1) == z
  {
    OddFactor(m, r, 16 * z);
    var a := m / 2;
    OddFactor(a, r, 8 * z);
    var b := a / 2;
    OddFactor(b, r, 4 * z);
    var d := b / 2;
    OddFactor(d, r, 2 * z);
    var e := d / 2;
    OddFactor(e, r, z);
    assert m == 2 * a && a == 2 * b && b == 2 * d && d == 2 * e && e == 2 * (e / 2);
    assert m == 32 * (e / 2);
  }

  /** Modulo h at most one count of steps has STEP_X2 * steps + 1 divisible. */
  lemma OnlyOne(h: nat, r: nat, steps: nat, v: int, k: int)
    requires r < h && steps < h && h * v == STEP_X2 * r + 1 && h * k == STEP_X2 * steps + 1
    ensures steps == r
  {
    var w := v * steps - k * r;
    assert h * w == h * v * steps - h * k * r;
    assert h * v * steps == (STEP_X2 * r + 1) * steps && h * k * r == (STEP_X2 * steps + 1) * r;
    assert h * w == steps - r;
    if w > 0 { MulLe(1, w, h); } else if w < 0 { MulLe(w, -1, h); }
  }

  // ---- no pattern ties ----------------------------------------------------------------

  /** r are the only steps that could tie at the tempo 64 i + 769; or, for r 0, the
      tempo has a factor of STEP_X2 and none could. */
  predicate OnlyTie(i: nat, r: nat) {
    var h := 64 * i + 769;
    if r == 0 then h % 3 == 0 || h % 5 == 0 || h % 7 == 0 else r < h && (STEP_X2 * r + 1) % h == 0
  }

  /** The steps among those that are few enough to be a pattern's. */
  predicate Few(i: nat, r: nat) {
    || (i == 0 && r == 77) || (i == 3 && r == 139) || (i == 6 && r == 358) || (i == 18 && r == 432)
    || (i == 58 && r == 453) || (i == 60 && r == 277) || (i == 66 && r == 33) || (i == 70 && r == 473)
    || (i == 88 && r == 339) || (i == 90 && r == 164) || (i == 100 && r == 431)
  }

  /** They are no pattern, or the samples do not divide. */
  lemma FewDoNotTie(i: nat, r: nat)
    requires Few(i, r)
    ensures (496125 * r) % (i + 12) != 0 || (496125 * r) / (i + 12) % 2 == 0 || !HasPattern(r)
  {
  }

  // Tempo by tempo, a dozen at a time: each case is a division of two constants.

  lemma OnlyTies0(i: nat) returns (r: nat)
    requires 0 <= i < 13
    ensures OnlyTie(i, r) && (0 < r <= 512 ==> Few(i, r))
  {
    match i {
      case 0 => assert OnlyTie(0, 77); return 77;
      case 1 => assert OnlyTie(1, 0); return 0;
      case 2 => assert OnlyTie(2, 0); return 0;
      case 3 => assert OnlyTie(3, 139); return 139;
      case 4 => assert OnlyTie(4, 0); return 0;
      case 5 => assert OnlyTie(5, 0); return 0;
      case 6 => assert OnlyTie(6, 358); return 358;
      case 7 => assert OnlyTie(7, 681); return 681;
      case 8 => assert OnlyTie(8, 0); return 0;
      case 9 => assert OnlyTie(9, 0); return 0;
      case 10 => assert OnlyTie(10, 754); return 754;
      case 11 => assert OnlyTie(11, 0); return 0;
      case _ => assert OnlyTie(12, 792); return 792;
    }
  }

  lemma OnlyTies1(i: nat) returns (r: nat)
    requires 13 <= i < 26
    ensures OnlyTie(i, r) && (0 < r <= 512 ==> Few(i, r))
  {
    match i {
      case 13 => assert OnlyTie(13, 822); return 822;
      case 14 => assert OnlyTie(14, 0); return 0;
      case 15 => assert OnlyTie(15, 0); return 0;
      case 16 => assert OnlyTie(16, 1619); return 1619;
      case 17 => assert OnlyTie(17, 0); return 0;
      case 18 => assert OnlyTie(18, 432); return 432;
      case 19 => assert OnlyTie(19, 0); return 0;
      case 20 => assert OnlyTie(20, 0); return 0;
      case 21 => assert OnlyTie(21, 1823); return 1823;
      case 22 => assert OnlyTie(22, 0); return 0;
      case 23 => assert OnlyTie(23, 0); return 0;
      case 24 => assert OnlyTie(24, 0); return 0;
      case _ => assert OnlyTie(25, 1706); return 1706;
    }
  }

  lemma OnlyTies2(i: nat) returns (r: nat)
    requires 26 <= i < 39
    ensures OnlyTie(i, r) && (0 < r <= 512 ==> Few(i, r))
  {
    match i {
      case 26 => assert OnlyTie(26, 0); return 0;
      case 27 => assert OnlyTie(27, 1839); return 1839;
      case 28 => assert OnlyTie(28, 791); return 791;
      case 29 => assert OnlyTie(29, 0); return 0;
      case 30 => assert OnlyTie(30, 1802); return 1802;
      case 31 => assert OnlyTie(31, 2066); return 2066;
      case 32 => assert OnlyTie(32, 0); return 0;
      case 33 => assert OnlyTie(33, 2575); return 2575;
      case 34 => assert OnlyTie(34, 0); return 0;
      case 35 => assert OnlyTie(35, 0); return 0;
      case 36 => assert OnlyTie(36, 0); return 0;
      case 37 => assert OnlyTie(37, 2456); return 2456;
      case _ => assert OnlyTie(38, 0); return 0;
    }
  }

  lemma OnlyTies3(i: nat) returns (r: nat)
    requires 39 <= i < 52
    ensures OnlyTie(i, r) && (0 < r <= 512 ==> Few(i, r))
  {
    match i {
      case 39 => assert OnlyTie(39, 0); return 0;
      case 40 => assert OnlyTie(40, 1665); return 1665;
      case 41 => assert OnlyTie(41, 0); return 0;
      case 42 => assert OnlyTie(42, 647); return 647;
      case 43 => assert OnlyTie(43, 0); return 0;
      case 44 => assert OnlyTie(44, 0); return 0;
      case 45 => assert OnlyTie(45, 2336); return 2336;
      case 46 => assert OnlyTie(46, 2429); return 2429;
      case 47 => assert OnlyTie(47, 0); return 0;
      case 48 => assert OnlyTie(48, 1522); return 1522;
      case 49 => assert OnlyTie(49, 0); return 0;
      case 50 => assert OnlyTie(50, 0); return 0;
      case _ => assert OnlyTie(51, 3484); return 3484;
    }
  }

  lemma OnlyTies4(i: nat) returns (r: nat)
    requires 52 <= i < 65
    ensures OnlyTie(i, r) && (0 < r <= 512 ==> Few(i, r))
  {
    match i {
      case 52 => assert OnlyTie(52, 2999); return 2999;
      case 53 => assert OnlyTie(53, 0); return 0;
      case 54 => assert OnlyTie(54, 0); return 0;
      case 55 => assert OnlyTie(55, 515); return 515;
      case 56 => assert OnlyTie(56, 0); return 0;
      case 57 => assert OnlyTie(57, 0); return 0;
      case 58 => assert OnlyTie(58, 453); return 453;
      case 59 => assert OnlyTie(59, 0); return 0;
      case 60 => assert OnlyTie(60, 277); return 277;
      case 61 => assert OnlyTie(61, 3919); return 3919;
      case 62 => assert OnlyTie(62, 0); return 0;
      case 63 => assert OnlyTie(63, 1850); return 1850;
      case _ => assert OnlyTie(64, 0); return 0;
    }
  }

  lemma OnlyTies5(i: nat) returns (r: nat)
    requires 65 <= i < 78
    ensures OnlyTie(i, r) && (0 < r <= 512 ==> Few(i, r))
  {
    match i {
      case 65 => assert OnlyTie(65, 0); return 0;
      case 66 => assert OnlyTie(66, 33); return 33;
      case 67 => assert OnlyTie(67, 5029); return 5029;
      case 68 => assert OnlyTie(68, 0); return 0;
      case 69 => assert OnlyTie(69, 0); return 0;
      case 70 => assert OnlyTie(70, 473); return 473;
      case 71 => assert OnlyTie(71, 0); return 0;
      case 72 => assert OnlyTie(72, 4836); return 4836;
      case 73 => assert OnlyTie(73, 4308); return 4308;
      case 74 => assert OnlyTie(74, 0); return 0;
      case 75 => assert OnlyTie(75, 2451); return 2451;
      case 76 => assert OnlyTie(76, 3091); return 3091;
      case _ => assert OnlyTie(77, 0); return 0;
    }
  }

  lemma OnlyTies6(i: nat) returns (r: nat)
    requires 78 <= i < 90
    ensures OnlyTie(i, r) && (0 < r <= 512 ==> Few(i, r))
  {
    match i {
      case 78 => assert OnlyTie(78, 0); return 0;
      case 79 => assert OnlyTie(79, 0); return 0;
      case 80 => assert OnlyTie(80, 0); return 0;
      case 81 => assert OnlyTie(81, 5098); return 5098;
      case 82 => assert OnlyTie(82, 1344); return 1344;
      case 83 => assert OnlyTie(83, 0); return 0;
      case 84 => assert OnlyTie(84, 0); return 0;
      case 85 => assert OnlyTie(85, 0); return 0;
      case 86 => assert OnlyTie(86, 0); return 0;
      case 87 => assert OnlyTie(87, 5417); return 5417;
      case 88 => assert OnlyTie(88, 339); return 339;
      case _ => assert OnlyTie(89, 0); return 0;
    }
  }

  lemma OnlyTies7(i: nat) returns (r: nat)
    requires 90 <= i < 101
    ensures OnlyTie(i, r) && (0 < r <= 512 ==> Few(i, r))
  {
    match i {
      case 90 => assert OnlyTie(90, 164); return 164;
      case 91 => assert OnlyTie(91, 5710); return 5710;
      case 92 => assert OnlyTie(92, 0); return 0;
      case 93 => assert OnlyTie(93, 596); return 596;
      case 94 => assert OnlyTie(94, 0); return 0;
      case 95 => assert OnlyTie(95, 0); return 0;
      case 96 => assert OnlyTie(96, 2433); return 2433;
      case 97 => assert OnlyTie(97, 4630); return 4630;
      case 98 => assert OnlyTie(98, 0); return 0;
      case 99 => assert OnlyTie(99, 0); return 0;
      case _ => assert OnlyTie(100, 431); return 431;
    }
  }

  lemma OnlyTies(i: nat) returns (r: nat)
    requires i < 101
    ensures OnlyTie(i, r) && (0 < r <= 512 ==> Few(i, r))
  {
    if i < 13 { r := OnlyTies0(i); } else if i < 26 { r := OnlyTies1(i); }
    else if i < 39 { r := OnlyTies2(i); } else if i < 52 { r := OnlyTies3(i); }
    else if i < 65 { r := OnlyTies4(i); } else if i < 78 { r := OnlyTies5(i); }
    else if i < 90 { r := OnlyTies6(i); } else { r := OnlyTies7(i); }
  }

  // ---- the cut ------------------------------------------------------------------------

  lemma NoFactor(p: nat, h: nat, k: int, steps: nat)
    requires p > 1 && h % p == 0 && STEP_X2 % p == 0
    ensures h * k != STEP_X2 * steps + 1
  {
    var a, b := h / p, STEP_X2 / p;
    var w := a * k - b * steps;
    assert p * w == h * k - STEP_X2 * steps;
    if w > 0 { MulLe(1, w, p); } else { MulLe(w, 0, p); }
  }

  /** The steps that could tie at a tempo are the only ones that do. */
  lemma TieIsOnly(steps: nat, i: nat, r: nat, k: int)
    requires 0 < steps <= 512 && i < 101 && OnlyTie(i, r) && (64 * i + 769) * k == STEP_X2 * steps + 1
    ensures r == steps
  {
    var h := 64 * i + 769;
    if r == 0 {
      NoFactor(if h % 3 == 0 then 3 else if h % 5 == 0 then 5 else 7, h, k, steps);
    } else {
      var v := (STEP_X2 * r + 1) / h;
      DivBounds(STEP_X2 * r + 1, h, v);
      OnlyOne(h, r, steps, v, k);
    }
  }

  /** No steps with samples of the form of a tie are a pattern's. */
  lemma TiesAreNoPatterns(steps: nat, i: nat, q: nat, k: int)
    requires 0 < steps <= 512 && i < 101
    requires (64 * i + 769) * k == STEP_X2 * steps + 1 && (i + 12) * q == 496125 * steps && q % 2 == 1
    ensures !HasPattern(steps)
  {
    var r := OnlyTies(i);
    TieIsOnly(steps, i, r, k);
    FewDoNotTie(i, r);
    DivUnique(496125 * steps, i + 12, q);
  }

  lemma TieSteps(steps: nat, h: nat, d: nat, m: nat, hd: nat) returns (i: nat, k: int)
    requires 720 < h <= 7200 && h == 2 * m + 1 && hd == h * d && STEP_X2 * steps == (h - 1) * (2 * hd + 1)
    ensures i < 101 && 64 * i + 769 == h && h * k == STEP_X2 * steps + 1 && (i + 12) * (2 * hd + 1) == 496125 * steps
  {
    var q := 2 * hd + 1;
    assert (h - 1) * q == 2 * (m * q);
    ThirtyTwo(m, hd, 496125 * steps);
    i, k := m / 32 - 12, q - 2 * d;
    KForm(h, q, d, hd);
  }

  lemma KForm(h: nat, q: nat, d: nat, hd: nat)
    requires hd == h * d && q == 2 * hd + 1 && h > 0
    ensures h * (q - 2 * d) == (h - 1) * q + 1
  {
    assert h * (q - 2 * d) == h * q - 2 * hd;
  }

  /** Between the loops of a pattern at two neighbouring tempos there is no room for a
      cut of exactly one part in h. */
  lemma NoTie(steps: nat, h: nat, loop: nat, slower: nat, d: nat)
    requires 0 < steps <= 512 && HasPattern(steps) && 720 < h <= 7200 && loop + d < slower
    requires slower * (h - 1) <= 15876000 * steps + (h - 1) / 2 && 15876000 * steps + h / 2 < loop * h + h
    ensures h * d != loop + d
  {
    if h * d == loop + d {
      var hd := loop + d;
      TieForm(15876000 * steps, h, loop, slower, d, hd);
      var i, k := TieSteps(steps, h, d, (h - 1) / 2, hd);
      TiesAreNoPatterns(steps, i, 2 * hd + 1, k);
    }
  }

  lemma SomeLoop(x: nat, h: nat, loop: nat)
    requires h < x && x + h / 2 < loop * h + h
    ensures loop > 0
  {
  }

  /** A solved tempo cuts under one part in tempo24 of the take, and pads nothing. */
  lemma CutIsStrict(take: nat, steps: nat, bars: nat, f: FlTempo)
    requires Solvable(take, steps) && Solves(take, steps, bars, f)
    ensures f.loop <= take && f.tempo24 * (take - f.loop) < take
  {
    CutIsSmall(take, steps, bars, f);
    PatternTicks(steps);
    var h := f.tempo24;
    RoundedBounds(6 * steps, h);
    assert steps > 0;
    SomeLoop(15876000 * steps, h, f.loop);
    if h > TEMPO24_MIN {
      RoundedBounds(6 * steps, h - 1);
      NoTie(steps, h, f.loop, Rounded(6 * steps, h - 1), take - f.loop);
    } else {
      SlowestCut(take, f.loop);
    }
  }

  /** At 30 BPM the solver's own limit is stricter. */
  lemma SlowestCut(take: nat, loop: nat)
    requires 0 < loop <= take && take - loop <= loop / 1000
    ensures 720 * (take - loop) < take
  {
  }
}
