/** What loading a file makes of each entry of BRAIN's value table (brain.c,
    `load_settings`, `apply_settings`), entry by entry and told by the records' bytes. */
module LoadedValues {
  import opened Words
  import opened Bytes
  import opened RecordFile
  import opened Fields
  import opened Settings
  import opened SettingsRoundTrip

  /** Field x holds v for the entry: its key, its type and length, a value in bounds and on
      a step. */
  ghost predicate Holds(e: Setting, x: Field, v: int) {
    && IsField(x) && Be16(x, 0) == e.key && x[2] == e.form
    && (if e.form == 3 then LengthOf(x) == 2 && v == Signed(Be16(Data(x), 0))
        else LengthOf(x) == 1 && v == Data(x)[0])
    && e.min <= v <= e.max && (e.step <= 1 || (v - e.min) % e.step == 0)
  }

  function Signed(w: nat): int {
    if w < 0x8000 then w else w - 0x1_0000
  }

  /** The last field that holds a value for the entry holds v. */
  ghost predicate LastHolds(e: Setting, fs: seq<Field>, v: int) {
    exists j | 0 <= j < |fs| :: Holds(e, fs[j], v) && forall k, u | j < k < |fs| :: !Holds(e, fs[k], u)
  }

  ghost predicate NoneHolds(e: Setting, fs: seq<Field>) {
    forall j, v | 0 <= j < |fs| :: !Holds(e, fs[j], v)
  }

  lemma ReadIsHolds(e: Setting, x: Field, v: int)
    requires IsField(x)
    ensures e.key == Key(x) && ReadValue(e, x) == Some(v) <==> Holds(e, x, v)
  {
    if LengthOf(x) == 2 { assert Be16(Data(x), 0) < 0x1_0000; }
  }

  lemma {:induction false} LastFitHolds(e: Setting, fs: seq<Field>)
    requires AllFields(fs)
    ensures LastFit(e, fs).Some? ==> LastHolds(e, fs, LastFit(e, fs).value)
    ensures LastFit(e, fs).None? ==> NoneHolds(e, fs)
  {
    if fs != [] {
      var n := |fs| - 1;
      var init, x := fs[..n], fs[n];
      LastFitHolds(e, init);
      if e.key == Key(x) && ReadValue(e, x).Some? {
        ReadIsHolds(e, x, ReadValue(e, x).value);
        assert Holds(e, fs[n], ReadValue(e, x).value);
      } else {
        forall v ensures !Holds(e, x, v) { ReadIsHolds(e, x, v); }
        if LastFit(e, init).Some? {
          var v := LastFit(e, init).value;
          var j :| 0 <= j < n && Holds(e, init[j], v) && forall k, u | j < k < n :: !Holds(e, init[k], u);
          forall k, u | j < k < |fs| ensures !Holds(e, fs[k], u) { if k < n { assert fs[k] == init[k]; } }
          assert Holds(e, fs[j], v);
        } else {
          forall j, v | 0 <= j < |fs| ensures !Holds(e, fs[j], v) { if j < n { assert fs[j] == init[j]; } }
        }
      }
    }
  }

  // ---- a file -----------------------------------------------------------------------------

  /** Record k is the only one of the store, and sound. */
  ghost predicate Sole(rs: seq<Rec>, k: nat, id: seq<byte>, crc: Crc)
    requires AllRecords(rs)
  {
    && k < |rs| && StoreId(rs[k]) == Some(id) && Schema(rs[k]) == 1 && Intact(rs[k], crc)
    && forall j | 0 <= j < |rs| && j != k :: StoreId(rs[j]) != Some(id)
  }

  lemma OneEntry(t: Table, w: seq<int>, scope: nat, rs: seq<Rec>, k: nat, i: nat, crc: Crc)
    requires |w| == |t| && AllRecords(rs) && k < |rs| && i < |t|
    ensures AfterOne(t, w, scope, rs, k, crc)[i]
         == if t[i].scope == scope && Sole(rs, k, t[i].id, crc) && LastFit(t[i], FieldsIn(rs[k])).Some?
            then LastFit(t[i], FieldsIn(rs[k])).value else w[i]
  {
    OnceIs(rs, k);
    FieldsAreFields(Payload(rs[k]));
    RecordApplies(t, w, scope, rs[k], i);
  }

  lemma OnceIs(rs: seq<Rec>, k: nat)
    requires k < |rs|
    ensures Twice(StoreIds(rs), k) <==> exists j | 0 <= j < |rs| && j != k :: StoreId(rs[j]) == StoreId(rs[k])
  {
    var ids := StoreIds(rs);
    assert forall j | 0 <= j < |rs| :: ids[j] == StoreId(rs[j]);
  }

  function FieldsIn(r: Rec): (fs: seq<Field>)
    requires IsRecord(r)
    ensures AllFields(fs)
  {
    FieldsAreFields(Payload(r));
    FieldsOf(Payload(r))
  }

  lemma {:induction false} BeforeSole(t: Table, vals: seq<int>, scope: nat, rs: seq<Rec>, n: nat, i: nat, crc: Crc)
    requires |vals| == |t| && AllRecords(rs) && n <= |rs| && i < |t|
    requires forall k: nat | k < n :: !(t[i].scope == scope && Sole(rs, k, t[i].id, crc))
    ensures Loaded(t, vals, scope, rs, n, crc)[i] == vals[i]
  {
    if n > 0 {
      BeforeSole(t, vals, scope, rs, n - 1, i, crc);
      OneEntry(t, Loaded(t, vals, scope, rs, n - 1, crc), scope, rs, n - 1, i, crc);
    }
  }

  lemma {:induction false} FromSole(t: Table, vals: seq<int>, scope: nat, rs: seq<Rec>, n: nat, k: nat, i: nat,
                                    crc: Crc)
    requires |vals| == |t| && AllRecords(rs) && k < n <= |rs| && i < |t|
    requires t[i].scope == scope && Sole(rs, k, t[i].id, crc)
    ensures var fit := LastFit(t[i], FieldsIn(rs[k]));
      Loaded(t, vals, scope, rs, n, crc)[i] == if fit.Some? then fit.value else vals[i]
  {
    OneEntry(t, Loaded(t, vals, scope, rs, n - 1, crc), scope, rs, n - 1, i, crc);
    if k < n - 1 {
      FromSole(t, vals, scope, rs, n - 1, k, i, crc);
    } else {
      BeforeSole(t, vals, scope, rs, n - 1, i, crc);
    }
  }

  /** Loading gives an entry of the scope the last value for it in its store's record, if
      the file has exactly one and that is intact and of schema 1; any other entry, and
      one for which that record holds no value, keeps its own. */
  lemma EntryLoaded(t: Table, vals: seq<int>, scope: nat, rs: seq<Rec>, i: nat, crc: Crc)
    requires |vals| == |t| && AllRecords(rs) && i < |t|
    ensures var w := Loaded(t, vals, scope, rs, |rs|, crc);
      && ((t[i].scope != scope || forall k: nat | k < |rs| :: !Sole(rs, k, t[i].id, crc)) ==> w[i] == vals[i])
      && (forall k: nat | k < |rs| && t[i].scope == scope && Sole(rs, k, t[i].id, crc) ::
            || LastHolds(t[i], FieldsIn(rs[k]), w[i])
            || (NoneHolds(t[i], FieldsIn(rs[k])) && w[i] == vals[i]))
  {
    if t[i].scope != scope || forall k: nat | k < |rs| :: !Sole(rs, k, t[i].id, crc) {
      BeforeSole(t, vals, scope, rs, |rs|, i, crc);
    }
    forall k: nat | k < |rs| && t[i].scope == scope && Sole(rs, k, t[i].id, crc)
      ensures || LastHolds(t[i], FieldsIn(rs[k]), Loaded(t, vals, scope, rs, |rs|, crc)[i])
              || (NoneHolds(t[i], FieldsIn(rs[k])) && Loaded(t, vals, scope, rs, |rs|, crc)[i] == vals[i])
    {
      FromSole(t, vals, scope, rs, |rs|, k, i, crc);
      LastFitHolds(t[i], FieldsIn(rs[k]));
    }
  }
}
