/** The availability form: a new (or edited) weekly window is refused when it
    does not start before it ends, or when one of three range queries finds a
    stored window of the same profile and day that it runs into. */
module Availability {
  import opened Records

  /** What the form hands to `clean`: a field that failed to parse is `None`.
      `editing` is the primary key of the record being edited, `None` for a
      new record (whose primary key the database has not assigned yet). */
  datatype Fields = Fields(
    profile: ProfileId,
    day: Option<string>,
    start: Option<TimeOfDay>,
    end: Option<TimeOfDay>,
    competitive: bool,
    editing: Option<nat>)

  /** The three overlap queries the form runs. */
  datatype Query = StartInRange | EndInRange | Encloses

  /** The filter the three queries share: same profile, same day, not the
      record being edited. */
  predicate InScope(w: Availability, f: Fields)
  {
    w.profile == f.profile && f.day == Some(w.day) && f.editing != Some(w.pk)
  }

  /** The range condition of one query against the window `[s, e]`; ranges
      are inclusive at both ends, as the database's `BETWEEN` is. */
  predicate Hits(w: Availability, q: Query, s: int, e: int)
  {
    match q
    case StartInRange => s <= w.start <= e
    case EndInRange => s <= w.end <= e
    case Encloses => w.start <= s && w.end >= e
  }

  /** The rows one query returns, in table order. */
  function Select(rows: seq<Availability>, f: Fields, q: Query, s: int, e: int): (r: seq<Availability>)
    ensures |r| <= |rows|
    ensures forall w :: w in r <==> w in rows && InScope(w, f) && Hits(w, q, s, e)
  {
    if rows == [] then []
    else
      var rest := Select(rows[1..], f, q, s, e);
      assert forall w :: w in rows <==> w == rows[0] || w in rows[1..];
      if InScope(rows[0], f) && Hits(rows[0], q, s, e) then [rows[0]] + rest else rest
  }

  /** Closed intervals `[a, b]` and `[c, d]` share at least one instant. */
  predicate Meet(a: int, b: int, c: int, d: int)
  {
    a <= d && c <= b
  }

  datatype Verdict = Clean | StartNotBeforeEnd | Overlapping

  /** `UserAvailabilityForm.clean`. Without both times it adds no error of its
      own (the missing field already carries one). */
  function CleanWindow(rows: seq<Availability>, f: Fields): (v: Verdict)
    ensures v == StartNotBeforeEnd <==> f.start.Some? && f.end.Some? && f.start.value >= f.end.value
    ensures v == Overlapping <==>
      && f.start.Some? && f.end.Some? && f.start.value < f.end.value
      && exists w, q :: w in rows && InScope(w, f) && Hits(w, q, f.start.value, f.end.value)
    ensures f.start.None? || f.end.None? ==> v == Clean
  {
    if f.start.None? || f.end.None? then Clean
    else
      var s, e := f.start.value, f.end.value;
      if s >= e then StartNotBeforeEnd
      else
        var byStart := Select(rows, f, StartInRange, s, e);
        var byEnd := Select(rows, f, EndInRange, s, e);
        var inside := Select(rows, f, Encloses, s, e);
        if byStart != [] || inside != [] || byEnd != [] then
          assert byStart != [] ==> byStart[0] in byStart;
          assert byEnd != [] ==> byEnd[0] in byEnd;
          assert inside != [] ==> inside[0] in inside;
          Overlapping
        else
          assert forall w, q :: w in rows && InScope(w, f) && Hits(w, q, s, e) ==>
            w in Select(rows, f, q, s, e);
          Clean
  }

  /** The union of the three queries is exactly closed-interval intersection,
      for any stored window whose start does not come after its end. */
  lemma ThreeQueriesMeanMeet(w: Availability, s: int, e: int)
    requires w.start <= w.end && s <= e
    ensures (exists q :: Hits(w, q, s, e)) <==> Meet(w.start, w.end, s, e)
  {
    if Meet(w.start, w.end, s, e) {
      if s <= w.start {
        assert Hits(w, StartInRange, s, e);
      } else if w.end <= e {
        assert Hits(w, EndInRange, s, e);
      } else {
        assert Hits(w, Encloses, s, e);
      }
    }
  }

  /** Every stored window starts before it ends, primary keys are distinct,
      and two windows of the same profile and day never share an instant. */
  predicate WellFormed(rows: seq<Availability>)
  {
    && (forall i :: 0 <= i < |rows| ==> rows[i].start < rows[i].end)
    && (forall i, j :: 0 <= i < j < |rows| ==> rows[i].pk != rows[j].pk)
    && (forall i, j :: 0 <= i < j < |rows| && rows[i].profile == rows[j].profile && rows[i].day == rows[j].day ==>
          !Meet(rows[i].start, rows[i].end, rows[j].start, rows[j].end))
  }

  /** Over well-formed rows the form refuses a well-ordered window exactly
      when a window in scope meets it, endpoints included. */
  lemma OverlapIffMeet(rows: seq<Availability>, f: Fields)
    requires WellFormed(rows)
    requires f.start.Some? && f.end.Some? && f.start.value < f.end.value
    ensures CleanWindow(rows, f) == Overlapping <==>
      exists w :: w in rows && InScope(w, f) && Meet(w.start, w.end, f.start.value, f.end.value)
  {
  }

  /** A window that begins exactly where a stored one ends is refused. */
  lemma BackToBackRefused(rows: seq<Availability>, f: Fields, w: Availability)
    requires w in rows && InScope(w, f) && w.start < w.end
    requires f.start == Some(w.end) && f.end.Some? && w.end < f.end.value
    ensures CleanWindow(rows, f) == Overlapping
  {
  }

  /** Index of the row with primary key `pk`, if any. */
  function IndexOf(rows: seq<Availability>, pk: nat): (r: Option<nat>)
    ensures r.Some? ==> r.value < |rows| && rows[r.value].pk == pk
    ensures r.None? ==> forall i :: 0 <= i < |rows| ==> rows[i].pk != pk
  {
    if rows == [] then None
    else if rows[0].pk == pk then Some(0)
    else match IndexOf(rows[1..], pk)
      case None => None
      case Some(i) => Some(i + 1)
  }

  /** The primary key the saved row ends up with. */
  function Key(f: Fields, freshPk: nat): nat
  {
    if f.editing.Some? then f.editing.value else freshPk
  }

  /** Submitting the form: `None` when a field is missing or `clean` refuses;
      otherwise the table after `save`. An edit overwrites the stored row and
      keeps its owner; a new row takes the key `freshPk` the database assigns. */
  function Submit(rows: seq<Availability>, f: Fields, freshPk: nat): (r: Option<seq<Availability>>)
    ensures r.Some? <==> f.day.Some? && CleanWindow(rows, f) == Clean && f.start.Some? && f.end.Some?
    ensures r.Some? ==> exists w :: (w in r.value && w.pk == Key(f, freshPk) && w.day == f.day.value
                                     && w.start == f.start.value && w.end == f.end.value && w.competitive == f.competitive)
    ensures r.Some? ==> forall w :: w in rows && w.pk != Key(f, freshPk) ==> w in r.value
    ensures r.Some? ==> |r.value| <= |rows| + 1
    ensures r.Some? && IndexOf(rows, Key(f, freshPk)).Some? ==>
      var i := IndexOf(rows, Key(f, freshPk)).value;
      r.value == rows[i := rows[i].(day := f.day.value, start := f.start.value, end := f.end.value, competitive := f.competitive)]
    ensures r.Some? && IndexOf(rows, Key(f, freshPk)).None? ==>
      r.value == rows + [Availability(Key(f, freshPk), f.profile, f.day.value, f.start.value, f.end.value, f.competitive)]
  {
    if f.day.None? || f.start.None? || f.end.None? || CleanWindow(rows, f) != Clean then None
    else
      var key := Key(f, freshPk);
      match IndexOf(rows, key)
      case Some(i) =>
        var saved := Availability(key, rows[i].profile, f.day.value, f.start.value, f.end.value, f.competitive);
        assert forall w :: w in rows && w.pk != key ==> w in rows[i := saved] by {
          forall w | w in rows && w.pk != key ensures w in rows[i := saved] {
            var j :| 0 <= j < |rows| && rows[j] == w;
            assert rows[i := saved][j] == w;
          }
        }
        assert rows[i := saved][i] == saved;
        Some(rows[i := saved])
      case None =>
        var saved := Availability(key, f.profile, f.day.value, f.start.value, f.end.value, f.competitive);
        assert (rows + [saved])[|rows|] == saved;
        Some(rows + [saved])
  }

  /** The caller's side of the bargain: a new record gets a key not yet in the
      table, and an edited record belongs to the user submitting the form. */
  predicate Admissible(rows: seq<Availability>, f: Fields, freshPk: nat)
  {
    && (f.editing.None? ==> forall i :: 0 <= i < |rows| ==> rows[i].pk != freshPk)
    && (forall i :: 0 <= i < |rows| && f.editing == Some(rows[i].pk) ==> rows[i].profile == f.profile)
  }

  /** Overwriting one row with a window that meets no other row of its group
      keeps the table well formed. */
  lemma ReplaceKeepsWellFormed(rows: seq<Availability>, k: nat, nw: Availability)
    requires WellFormed(rows) && k < |rows|
    requires nw.pk == rows[k].pk && nw.start < nw.end
    requires forall i :: 0 <= i < |rows| && i != k && rows[i].profile == nw.profile && rows[i].day == nw.day ==>
      !Meet(rows[i].start, rows[i].end, nw.start, nw.end)
    ensures WellFormed(rows[k := nw])
  {
  }

  /** Appending a window with a new key that meets no row of its group keeps
      the table well formed. */
  lemma AppendKeepsWellFormed(rows: seq<Availability>, nw: Availability)
    requires WellFormed(rows)
    requires nw.start < nw.end
    requires forall i :: 0 <= i < |rows| ==> rows[i].pk != nw.pk
    requires forall i :: 0 <= i < |rows| && rows[i].profile == nw.profile && rows[i].day == nw.day ==>
      !Meet(rows[i].start, rows[i].end, nw.start, nw.end)
    ensures WellFormed(rows + [nw])
  {
  }

  /** Accepting a window keeps every (profile, day) group pairwise disjoint. */
  lemma SubmitKeepsWellFormed(rows: seq<Availability>, f: Fields, freshPk: nat)
    requires WellFormed(rows) && Admissible(rows, f, freshPk)
    requires Submit(rows, f, freshPk).Some?
    ensures WellFormed(Submit(rows, f, freshPk).value)
  {
    var s, e := f.start.value, f.end.value;
    var key := Key(f, freshPk);
    var nw := Availability(key, f.profile, f.day.value, s, e, f.competitive);
    OverlapIffMeet(rows, f);
    assert Clear: forall i :: 0 <= i < |rows| && rows[i].pk != key && rows[i].profile == nw.profile && rows[i].day == nw.day ==>
      !Meet(rows[i].start, rows[i].end, s, e) by {
      forall i | 0 <= i < |rows| && rows[i].pk != key && rows[i].profile == nw.profile && rows[i].day == nw.day
        ensures !Meet(rows[i].start, rows[i].end, s, e)
      {
        assert rows[i] in rows && InScope(rows[i], f);
      }
    }
    match IndexOf(rows, key)
    case Some(k) =>
      assert rows[k].profile == f.profile;
      ReplaceKeepsWellFormed(rows, k, nw);
    case None =>
      AppendKeepsWellFormed(rows, nw);
  }
}
