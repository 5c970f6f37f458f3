/** The order of history cursors, and a bound on how often a cursor can move down. */
module CursorOrder {
  import opened Common

  /** A string as its UTF-16 code units.  An event timestamp n is the one-element text [n]. */
  type Text = seq<nat>

  /** `<` on strings. */
  predicate Less(a: Text, b: Text) {
    b != [] && (a == [] || a[0] < b[0] || (a[0] == b[0] && Less(a[1..], b[1..])))
  }

  lemma {:induction false} LessIsTransitive(a: Text, b: Text, c: Text)
    requires Less(a, b) && Less(b, c)
    ensures Less(a, c)
  {
    if a != [] && a[0] == b[0] == c[0] { LessIsTransitive(a[1..], b[1..], c[1..]); }
  }

  lemma {:induction false} LessIsTotal(a: Text, b: Text)
    ensures a == b || Less(a, b) || Less(b, a)
    ensures !(Less(a, b) && Less(b, a))
    decreases |a| + |b|
  {
    if a != [] && b != [] {
      LessIsTotal(a[1..], b[1..]);
      assert a == [a[0]] + a[1..] && b == [b[0]] + b[1..];
    }
  }

  datatype Cursor = Cursor(stamp: Text, id: Text)

  /** `cursorAdvances` and the SQL comparison `stamp < ? OR (stamp = ? AND id < ?)`. */
  predicate Before(a: Cursor, b: Cursor) {
    Less(a.stamp, b.stamp) || (a.stamp == b.stamp && Less(a.id, b.id))
  }

  /** A strict total order, so a cursor splits the rows into those above, at and below it. */
  lemma BeforeIsTotalOrder(a: Cursor, b: Cursor, c: Cursor)
    ensures a == b || Before(a, b) || Before(b, a)
    ensures !(Before(a, b) && Before(b, a)) && !Before(a, a)
    ensures Before(a, b) && Before(b, c) ==> Before(a, c)
  {
    hide Less;
    LessIsTotal(a.stamp, b.stamp);
    LessIsTotal(a.id, b.id);
    LessIsTotal(a.stamp, a.stamp);
    LessIsTotal(a.id, a.id);
    if Less(a.stamp, b.stamp) && Less(b.stamp, c.stamp) { LessIsTransitive(a.stamp, b.stamp, c.stamp); }
    if Less(a.id, b.id) && Less(b.id, c.id) { LessIsTransitive(a.id, b.id, c.id); }
  }

  // ---- Ranks ----

  /** Texts of at most `length` units, each below `base`. */
  datatype Limits = Limits(length: nat, base: nat)

  predicate Within(s: Text, l: Limits) { |s| <= l.length && forall k | 0 <= k < |s| :: s[k] < l.base }

  /** How many such texts there are. */
  function Size(l: Limits): (n: nat)
    ensures n >= 1
    decreases l.length
  {
    if l.length == 0 then 1 else 1 + l.base * Size(Limits(l.length - 1, l.base))
  }

  /** The position of `s` among them. */
  function Rank(s: Text, l: Limits): nat
    requires Within(s, l)
    decreases |s|
  {
    if s == [] then 0
    else
      var rest := Limits(l.length - 1, l.base);
      1 + s[0] * Size(rest) + Rank(s[1..], rest)
  }

  lemma Row(a: nat, b: nat, r: nat, width: nat)
    requires a < b && r < width
    ensures a * width + r < b * width
  {
    assert (a + 1) * width <= b * width;
    assert (a + 1) * width == a * width + width;
  }

  lemma {:induction false} RankFits(s: Text, l: Limits)
    requires Within(s, l)
    ensures Rank(s, l) < Size(l)
    decreases |s|
  {
    if s != [] {
      var rest := Limits(l.length - 1, l.base);
      RankFits(s[1..], rest);
      Row(s[0], l.base, Rank(s[1..], rest), Size(rest));
    }
  }

  lemma {:induction false} RankIsMonotone(a: Text, b: Text, l: Limits)
    requires Within(a, l) && Within(b, l) && Less(a, b)
    ensures Rank(a, l) < Rank(b, l)
    decreases |a|
  {
    hide Size;
    if a != [] {
      var rest := Limits(l.length - 1, l.base);
      assert Rank(a, l) == 1 + a[0] * Size(rest) + Rank(a[1..], rest);
      assert Rank(b, l) == 1 + b[0] * Size(rest) + Rank(b[1..], rest);
      if a[0] < b[0] {
        RankFits(a[1..], rest);
        Row(a[0], b[0], Rank(a[1..], rest), Size(rest));
      } else {
        RankIsMonotone(a[1..], b[1..], rest);
      }
    }
  }

  predicate CursorWithin(c: Cursor, stamps: Limits, ids: Limits) { Within(c.stamp, stamps) && Within(c.id, ids) }

  /** How far a cursor can still move down; a stream that has no cursor yet stands above all of them. */
  function Height(c: Option<Cursor>, stamps: Limits, ids: Limits): nat
    requires c.Some? ==> CursorWithin(c.value, stamps, ids)
  {
    if c.None? then Size(stamps) * Size(ids) else Rank(c.value.stamp, stamps) * Size(ids) + Rank(c.value.id, ids)
  }

  /** Every advance lowers the height. */
  lemma AdvanceLowersHeight(previous: Option<Cursor>, next: Cursor, stamps: Limits, ids: Limits)
    requires previous.Some? ==> CursorWithin(previous.value, stamps, ids) && Before(next, previous.value)
    requires CursorWithin(next, stamps, ids)
    ensures Height(Some(next), stamps, ids) < Height(previous, stamps, ids)
  {
    hide Rank, Size, Less;
    RankFits(next.id, ids);
    RankFits(next.stamp, stamps);
    if previous.None? {
      Row(Rank(next.stamp, stamps), Size(stamps), Rank(next.id, ids), Size(ids));
    } else if Less(next.stamp, previous.value.stamp) {
      RankIsMonotone(next.stamp, previous.value.stamp, stamps);
      Row(Rank(next.stamp, stamps), Rank(previous.value.stamp, stamps), Rank(next.id, ids), Size(ids));
    } else {
      RankIsMonotone(next.id, previous.value.id, ids);
    }
  }
}
