/** The per-date mix of the lots already entering on that date (`entrada_profile`)
    and the two tie-breaking costs the greedy placement derives from it. */
module Profiles {
  import opened Options
  import opened Classify
  import opened Rows

  /** Counters of product class and of nitrification value for one entry date. */
  datatype Profile = Profile(kinds: multiset<Kind>, nitrifs: multiset<int>)

  /** `entrada_profile.get(d, {empty counters})`. */
  function ProfileOf(profiles: map<int, Profile>, d: int): Profile {
    if d in profiles then profiles[d] else Profile(multiset{}, multiset{})
  }

  /** One more lot of class `kind` and nitrification `nitr` entering on `d`;
      a lot without a readable nitrification leaves that counter alone. */
  function RecordLot(profiles: map<int, Profile>, d: int, kind: Kind, nitr: Option<int>): (r: map<int, Profile>)
    ensures ProfileOf(r, d).kinds == ProfileOf(profiles, d).kinds + multiset{kind}
    ensures ProfileOf(r, d).nitrifs == ProfileOf(profiles, d).nitrifs + (if nitr.Some? then multiset{nitr.value} else multiset{})
    ensures forall x :: x != d ==> ProfileOf(r, x) == ProfileOf(profiles, x)
  {
    var p := ProfileOf(profiles, d);
    profiles[d := Profile(p.kinds + multiset{kind}, if nitr.Some? then p.nitrifs + multiset{nitr.value} else p.nitrifs)]
  }

  /** What a row contributes to the profile: its entry date, its class and its
      readable nitrification. */
  datatype Mark = Mark(entry: Option<int>, kind: Kind, nitr: Option<int>)

  function MarkOf(r: Row): Mark {
    Mark(r.entry, NormKind(r.kindText), NormNitrif(r.nitrif))
  }

  /** The marks of the rows, in row order. */
  function Marks(rows: seq<Row>): (ms: seq<Mark>)
    ensures |ms| == |rows|
    ensures forall i :: 0 <= i < |rows| ==> ms[i] == MarkOf(rows[i])
  {
    seq(|rows|, i requires 0 <= i < |rows| => MarkOf(rows[i]))
  }

  lemma MarksUpdate(rows: seq<Row>, i: nat, r: Row)
    requires i < |rows|
    ensures Marks(rows[i := r]) == Marks(rows)[i := MarkOf(r)]
  {
    var ms := Marks(rows[i := r]);
    assert forall j :: 0 <= j < |ms| ==> ms[j] == Marks(rows)[i := MarkOf(r)][j];
  }

  lemma MarksPrefix(rows: seq<Row>, i: nat)
    requires i < |rows|
    ensures Marks(rows[..i + 1]) == Marks(rows[..i]) + [MarkOf(rows[i])]
  {
    var ms := Marks(rows[..i + 1]);
    assert forall j :: 0 <= j < |ms| ==> ms[j] == (Marks(rows[..i]) + [MarkOf(rows[i])])[j];
  }

  /** How many marks enter on `d` with class `kind`. */
  function KindCount(ms: seq<Mark>, d: int, kind: Kind): nat
    decreases |ms|
  {
    if |ms| == 0 then 0
    else KindCount(ms[..|ms| - 1], d, kind) + KindHit(ms[|ms| - 1], d, kind)
  }

  /** How many marks enter on `d` with readable nitrification `v`. */
  function NitrifCount(ms: seq<Mark>, d: int, v: int): nat
    decreases |ms|
  {
    if |ms| == 0 then 0
    else NitrifCount(ms[..|ms| - 1], d, v) + NitrifHit(ms[|ms| - 1], d, v)
  }

  /** The profile table counts exactly the marks holding an entry date. */
  ghost predicate Tallies(profiles: map<int, Profile>, ms: seq<Mark>) {
    && (forall d, kind :: ProfileOf(profiles, d).kinds[kind] == KindCount(ms, d, kind))
    && (forall d, v :: ProfileOf(profiles, d).nitrifs[v] == NitrifCount(ms, d, v))
  }

  /** The profile table counts exactly the rows holding an entry date. */
  ghost predicate Describes(profiles: map<int, Profile>, rows: seq<Row>) {
    Tallies(profiles, Marks(rows))
  }

  /** Mark `i` enters on `d` with class `kind`. */
  predicate EntersWithKind(ms: seq<Mark>, i: int, d: int, kind: Kind) {
    0 <= i < |ms| && ms[i].entry == Some(d) && ms[i].kind == kind
  }

  /** Mark `i` enters on `d` with readable nitrification `v`. */
  predicate EntersWithNitrif(ms: seq<Mark>, i: int, d: int, v: int) {
    0 <= i < |ms| && ms[i].entry == Some(d) && ms[i].nitr == Some(v)
  }

  /** A class is counted on a date exactly when some lot of that class enters on it. */
  lemma {:induction false} KindCountPositive(ms: seq<Mark>, d: int, kind: Kind)
    ensures KindCount(ms, d, kind) > 0 <==> exists i :: EntersWithKind(ms, i, d, kind)
    decreases |ms|
  {
    if |ms| > 0 {
      var n := |ms| - 1;
      var front := ms[..n];
      KindCountPositive(front, d, kind);
      assert KindCount(ms, d, kind) == KindCount(front, d, kind) + KindHit(ms[n], d, kind);
      assert KindHit(ms[n], d, kind) > 0 <==> EntersWithKind(ms, n, d, kind);
      if exists i :: EntersWithKind(ms, i, d, kind) {
        var i :| EntersWithKind(ms, i, d, kind);
        if i < n {
          assert front[i] == ms[i];
          assert EntersWithKind(front, i, d, kind);
        }
      }
      if exists i :: EntersWithKind(front, i, d, kind) {
        var i :| EntersWithKind(front, i, d, kind);
        assert front[i] == ms[i];
        assert EntersWithKind(ms, i, d, kind);
      }
    }
  }

  /** A nitrification value is counted on a date exactly when some lot entering on
      it has that readable value. */
  lemma {:induction false} NitrifCountPositive(ms: seq<Mark>, d: int, v: int)
    ensures NitrifCount(ms, d, v) > 0 <==> exists i :: EntersWithNitrif(ms, i, d, v)
    decreases |ms|
  {
    if |ms| > 0 {
      var n := |ms| - 1;
      var front := ms[..n];
      NitrifCountPositive(front, d, v);
      assert NitrifCount(ms, d, v) == NitrifCount(front, d, v) + NitrifHit(ms[n], d, v);
      assert NitrifHit(ms[n], d, v) > 0 <==> EntersWithNitrif(ms, n, d, v);
      if exists i :: EntersWithNitrif(ms, i, d, v) {
        var i :| EntersWithNitrif(ms, i, d, v);
        if i < n {
          assert front[i] == ms[i];
          assert EntersWithNitrif(front, i, d, v);
        }
      }
      if exists i :: EntersWithNitrif(front, i, d, v) {
        var i :| EntersWithNitrif(front, i, d, v);
        assert front[i] == ms[i];
        assert EntersWithNitrif(ms, i, d, v);
      }
    }
  }

  /** One mark's part in the class count. */
  function KindHit(m: Mark, d: int, kind: Kind): int {
    if m.entry == Some(d) && m.kind == kind then 1 else 0
  }

  /** One mark's part in the nitrification count. */
  function NitrifHit(m: Mark, d: int, v: int): int {
    if m.entry == Some(d) && m.nitr == Some(v) then 1 else 0
  }

  /** Replacing one mark changes the class counts by exactly that mark's difference. */
  lemma {:induction false} KindCountUpdate(ms: seq<Mark>, i: nat, m: Mark, d: int, kind: Kind)
    requires i < |ms|
    ensures KindCount(ms[i := m], d, kind) == KindCount(ms, d, kind) - KindHit(ms[i], d, kind) + KindHit(m, d, kind)
    decreases |ms|
  {
    var n := |ms|;
    if i < n - 1 {
      assert ms[i := m][..n - 1] == ms[..n - 1][i := m];
      KindCountUpdate(ms[..n - 1], i, m, d, kind);
    } else {
      assert ms[i := m][..n - 1] == ms[..n - 1];
    }
  }

  /** Replacing one mark changes the nitrification counts by exactly that mark's difference. */
  lemma {:induction false} NitrifCountUpdate(ms: seq<Mark>, i: nat, m: Mark, d: int, v: int)
    requires i < |ms|
    ensures NitrifCount(ms[i := m], d, v) == NitrifCount(ms, d, v) - NitrifHit(ms[i], d, v) + NitrifHit(m, d, v)
    decreases |ms|
  {
    var n := |ms|;
    if i < n - 1 {
      assert ms[i := m][..n - 1] == ms[..n - 1][i := m];
      NitrifCountUpdate(ms[..n - 1], i, m, d, v);
    } else {
      assert ms[i := m][..n - 1] == ms[..n - 1];
    }
  }

  /** Recording mark `m` (replacing an unplaced mark) on `e`, one class count at a time. */
  lemma RecordKindCount(profiles: map<int, Profile>, ms: seq<Mark>, i: nat, m: Mark, e: int, d: int, kind: Kind)
    requires forall x, k :: ProfileOf(profiles, x).kinds[k] == KindCount(ms, x, k)
    requires i < |ms| && ms[i].entry.None? && m.entry == Some(e)
    ensures ProfileOf(RecordLot(profiles, e, m.kind, m.nitr), d).kinds[kind] == KindCount(ms[i := m], d, kind)
  {
    KindCountUpdate(ms, i, m, d, kind);
    var next := RecordLot(profiles, e, m.kind, m.nitr);
    var before := ProfileOf(profiles, d).kinds;
    assert before[kind] == KindCount(ms, d, kind);
    if d == e {
      assert ProfileOf(next, d).kinds == before + multiset{m.kind};
    } else {
      assert ProfileOf(next, d) == ProfileOf(profiles, d);
    }
  }

  /** Recording mark `m` (replacing an unplaced mark) on `e`, one nitrification count at a time. */
  lemma RecordNitrifCount(profiles: map<int, Profile>, ms: seq<Mark>, i: nat, m: Mark, e: int, d: int, v: int)
    requires forall x, w :: ProfileOf(profiles, x).nitrifs[w] == NitrifCount(ms, x, w)
    requires i < |ms| && ms[i].entry.None? && m.entry == Some(e)
    ensures ProfileOf(RecordLot(profiles, e, m.kind, m.nitr), d).nitrifs[v] == NitrifCount(ms[i := m], d, v)
  {
    NitrifCountUpdate(ms, i, m, d, v);
    var next := RecordLot(profiles, e, m.kind, m.nitr);
    var before := ProfileOf(profiles, d).nitrifs;
    assert before[v] == NitrifCount(ms, d, v);
    if d == e {
      assert ProfileOf(next, d).nitrifs == before + (if m.nitr.Some? then multiset{m.nitr.value} else multiset{});
    } else {
      assert ProfileOf(next, d) == ProfileOf(profiles, d);
    }
  }

  /** Recording one more mark in the table keeps it tallying the marks. */
  lemma RecordKeepsTally(profiles: map<int, Profile>, ms: seq<Mark>, i: nat, m: Mark, e: int)
    requires Tallies(profiles, ms)
    requires i < |ms| && ms[i].entry.None? && m.entry == Some(e)
    ensures Tallies(RecordLot(profiles, e, m.kind, m.nitr), ms[i := m])
  {
    forall d, kind
      ensures ProfileOf(RecordLot(profiles, e, m.kind, m.nitr), d).kinds[kind] == KindCount(ms[i := m], d, kind)
    {
      RecordKindCount(profiles, ms, i, m, e, d, kind);
    }
    forall d, v
      ensures ProfileOf(RecordLot(profiles, e, m.kind, m.nitr), d).nitrifs[v] == NitrifCount(ms[i := m], d, v)
    {
      RecordNitrifCount(profiles, ms, i, m, e, d, v);
    }
  }

  /** Entering row `i` (which had no entry) on `e` and recording it in the table
      keeps the table describing the rows. */
  lemma RecordKeepsDescription(profiles: map<int, Profile>, rows: seq<Row>, i: nat, r: Row, e: int)
    requires Describes(profiles, rows)
    requires i < |rows| && rows[i].entry.None? && r.entry == Some(e)
    ensures Describes(RecordLot(profiles, e, NormKind(r.kindText), NormNitrif(r.nitrif)), rows[i := r])
  {
    MarksUpdate(rows, i, r);
    RecordKeepsTally(profiles, Marks(rows), i, MarkOf(r), e);
  }

  /** The table after seeing one more mark: it is recorded when it holds an entry date. */
  function Seen(profiles: map<int, Profile>, m: Mark): map<int, Profile> {
    if m.entry.Some? then RecordLot(profiles, m.entry.value, m.kind, m.nitr) else profiles
  }

  lemma AppendKindCount(profiles: map<int, Profile>, ms: seq<Mark>, m: Mark, d: int, kind: Kind)
    requires forall x, k :: ProfileOf(profiles, x).kinds[k] == KindCount(ms, x, k)
    ensures ProfileOf(Seen(profiles, m), d).kinds[kind] == KindCount(ms + [m], d, kind)
  {
    assert (ms + [m])[..|ms|] == ms;
    assert KindCount(ms + [m], d, kind) == KindCount(ms, d, kind) + KindHit(m, d, kind);
    var before := ProfileOf(profiles, d).kinds;
    if m.entry == Some(d) {
      assert ProfileOf(Seen(profiles, m), d).kinds == before + multiset{m.kind};
    } else {
      assert ProfileOf(Seen(profiles, m), d) == ProfileOf(profiles, d);
    }
  }

  lemma AppendNitrifCount(profiles: map<int, Profile>, ms: seq<Mark>, m: Mark, d: int, v: int)
    requires forall x, w :: ProfileOf(profiles, x).nitrifs[w] == NitrifCount(ms, x, w)
    ensures ProfileOf(Seen(profiles, m), d).nitrifs[v] == NitrifCount(ms + [m], d, v)
  {
    assert (ms + [m])[..|ms|] == ms;
    assert NitrifCount(ms + [m], d, v) == NitrifCount(ms, d, v) + NitrifHit(m, d, v);
    var before := ProfileOf(profiles, d).nitrifs;
    if m.entry == Some(d) {
      assert ProfileOf(Seen(profiles, m), d).nitrifs == before + (if m.nitr.Some? then multiset{m.nitr.value} else multiset{});
    } else {
      assert ProfileOf(Seen(profiles, m), d) == ProfileOf(profiles, d);
    }
  }

  /** Seeing one more mark keeps the table tallying the marks. */
  lemma RecordAppended(profiles: map<int, Profile>, ms: seq<Mark>, m: Mark)
    requires Tallies(profiles, ms)
    ensures Tallies(Seen(profiles, m), ms + [m])
  {
    forall d, kind
      ensures ProfileOf(Seen(profiles, m), d).kinds[kind] == KindCount(ms + [m], d, kind)
    {
      AppendKindCount(profiles, ms, m, d, kind);
    }
    forall d, v
      ensures ProfileOf(Seen(profiles, m), d).nitrifs[v] == NitrifCount(ms + [m], d, v)
    {
      AppendNitrifCount(profiles, ms, m, d, v);
    }
  }

  /** Building `entrada_profile` from the rows that hold an ENTRADA_SAL. */
  method SeedProfile(rows: seq<Row>) returns (profiles: map<int, Profile>)
    ensures Describes(profiles, rows)
  {
    profiles := map[];
    var i := 0;
    while i < |rows|
      invariant 0 <= i <= |rows|
      invariant Describes(profiles, rows[..i])
    {
      MarksPrefix(rows, i);
      RecordAppended(profiles, Marks(rows[..i]), MarkOf(rows[i]));
      var r := rows[i];
      if r.entry.Some? {
        profiles := RecordLot(profiles, r.entry.value, NormKind(r.kindText), NormNitrif(r.nitrif));
      }
      i := i + 1;
    }
    assert rows[..i] == rows;
  }

  /** `cost_tipo`: 0 when nothing enters on the date yet or something of the same
      class does, 1 otherwise. */
  function KindCost(p: Profile, kind: Kind): (c: int)
    ensures c == 0 || c == 1
    ensures c == 0 <==> |p.kinds| == 0 || kind in p.kinds
  {
    if |p.kinds| == 0 then 0 else if p.kinds[kind] > 0 then 0 else 1
  }

  /** `cost_nitr`: 0 when the date has no nitrification counted yet or the lot's
      readable nitrification is among them, 1 otherwise (also when the lot's is unreadable). */
  function NitrifCost(p: Profile, nitr: Option<int>): (c: int)
    ensures c == 0 || c == 1
    ensures c == 0 <==> |p.nitrifs| == 0 || (nitr.Some? && nitr.value in p.nitrifs)
  {
    if |p.nitrifs| == 0 then 0 else if nitr.Some? && p.nitrifs[nitr.value] > 0 then 0 else 1
  }


  /** The class cost read through the marks: it is 0 exactly when no lot enters
      on `d`, or one of the same class does. */
  lemma KindCostOfMarks(profiles: map<int, Profile>, ms: seq<Mark>, d: int, kind: Kind)
    requires Tallies(profiles, ms)
    ensures KindCost(ProfileOf(profiles, d), kind) == 0 <==>
              (forall k :: KindCount(ms, d, k) == 0) || exists i :: EntersWithKind(ms, i, d, kind)
  {
    var p := ProfileOf(profiles, d).kinds;
    EmptyCounter(p);
    KindCountPositive(ms, d, kind);
    assert p[kind] == KindCount(ms, d, kind);
    if |p| == 0 {
      forall k ensures KindCount(ms, d, k) == 0 {
        assert p[k] == 0;
      }
    } else {
      var x :| p[x] != 0;
      assert KindCount(ms, d, x) != 0;
    }
  }

  /** The nitrification cost read through the marks: it is 0 exactly when no lot
      entering on `d` has a readable nitrification, or one has the lot's own. */
  lemma NitrifCostOfMarks(profiles: map<int, Profile>, ms: seq<Mark>, d: int, nitr: Option<int>)
    requires Tallies(profiles, ms)
    ensures NitrifCost(ProfileOf(profiles, d), nitr) == 0 <==>
              (forall v :: NitrifCount(ms, d, v) == 0)
              || (nitr.Some? && exists i :: EntersWithNitrif(ms, i, d, nitr.value))
  {
    var p := ProfileOf(profiles, d).nitrifs;
    EmptyNitrifCounter(p);
    if nitr.Some? {
      NitrifCountPositive(ms, d, nitr.value);
      assert p[nitr.value] == NitrifCount(ms, d, nitr.value);
    }
    if |p| == 0 {
      forall v ensures NitrifCount(ms, d, v) == 0 {
        assert p[v] == 0;
      }
    } else {
      var x :| p[x] != 0;
      assert NitrifCount(ms, d, x) != 0;
    }
  }

  /** A class counter is empty exactly when it counts nothing. */
  lemma EmptyCounter(m: multiset<Kind>)
    ensures |m| == 0 <==> forall x :: m[x] == 0
  {
    if forall x :: m[x] == 0 {
      assert m == multiset{};
    }
  }

  /** A nitrification counter is empty exactly when it counts nothing. */
  lemma EmptyNitrifCounter(m: multiset<int>)
    ensures |m| == 0 <==> forall x :: m[x] == 0
  {
    if forall x :: m[x] == 0 {
      assert m == multiset{};
    }
  }
}
