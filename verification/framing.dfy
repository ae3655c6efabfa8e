/** Separator framing of sequences: the join and split that Go's `bytes.Join`,
    `strings.Join` and `bytes.Split` perform, stated once for any element type.
    Both are defined from the back, one element or one row at a time, which is
    how the append loops of the slice utilities build their results. */
module Framing {

  /** The rows concatenated with `sep` between neighbours; no separator before
      the first row or after the last. */
  function Join<T>(rows: seq<seq<T>>, sep: seq<T>): (r: seq<T>)
    ensures |rows| == 0 ==> r == []
  {
    if |rows| == 0 then []
    else if |rows| == 1 then rows[0]
    else Join(rows[..|rows| - 1], sep) + sep + rows[|rows| - 1]
  }

  /** The parts of `s` between occurrences of `sep`, in order, empty parts
      included: a separator at either end yields an empty part there. */
  function Split<T(==)>(s: seq<T>, sep: T): (parts: seq<seq<T>>)
    ensures |parts| >= 1
  {
    if |s| == 0 then [[]]
    else
      var init := Split(s[..|s| - 1], sep);
      if s[|s| - 1] == sep then init + [[]]
      else init[..|init| - 1] + [init[|init| - 1] + [s[|s| - 1]]]
  }

  /** Total length of all rows. */
  function SumLengths<T>(rows: seq<seq<T>>): nat
  {
    if |rows| == 0 then 0 else SumLengths(rows[..|rows| - 1]) + |rows[|rows| - 1]|
  }

  /** No row contains the element `x`. */
  predicate NoneContains<T(==)>(rows: seq<seq<T>>, x: T)
  {
    forall i :: 0 <= i < |rows| ==> x !in rows[i]
  }

  /** The joined length is the rows' total length plus one separator per gap. */
  lemma {:induction false} JoinLength<T>(rows: seq<seq<T>>, sep: seq<T>)
    requires |rows| >= 1
    ensures |Join(rows, sep)| == SumLengths(rows) + (|rows| - 1) * |sep|
  {
    if |rows| > 1 {
      var init := rows[..|rows| - 1];
      JoinLength(init, sep);
      assert SumLengths(init) == SumLengths(rows) - |rows[|rows| - 1]|;
      MoreGaps(|init| - 1, |sep|);
    }
  }

  /** One more gap of width `w`. */
  lemma MoreGaps(gaps: int, w: int)
    ensures (gaps + 1) * w == gaps * w + w
  {
  }

  /** Joining two non-empty groups of rows is joining each group and putting
      one separator between them: the rows appear in order. */
  lemma {:induction false} JoinConcat<T>(a: seq<seq<T>>, b: seq<seq<T>>, sep: seq<T>)
    requires |a| >= 1 && |b| >= 1
    ensures Join(a + b, sep) == Join(a, sep) + sep + Join(b, sep)
  {
    var ab := a + b;
    if |b| == 1 {
      assert ab[..|ab| - 1] == a;
    } else {
      var b' := b[..|b| - 1];
      assert ab[..|ab| - 1] == a + b';
      assert b'[..] == b[..|b| - 1];
      JoinConcat(a, b', sep);
    }
  }

  /** Extending the last row extends the joined sequence at its end. */
  lemma {:induction false} JoinExtendLast<T>(rows: seq<seq<T>>, sep: seq<T>, t: seq<T>)
    requires |rows| >= 1
    ensures Join(rows[..|rows| - 1] + [rows[|rows| - 1] + t], sep) == Join(rows, sep) + t
  {
    var k := |rows|;
    var ext := rows[..k - 1] + [rows[k - 1] + t];
    assert ext[..k - 1] == rows[..k - 1];
  }

  /** Splitting yields one more part than `s` holds separators. */
  lemma {:induction false} SplitCount<T>(s: seq<T>, sep: T)
    ensures |Split(s, sep)| == multiset(s)[sep] + 1
  {
    if |s| > 0 {
      var p := s[..|s| - 1];
      SplitCount(p, sep);
      assert s == p + [s[|s| - 1]];
      assert multiset(s) == multiset(p) + multiset{s[|s| - 1]};
    }
  }

  /** No part of a split contains the separator. */
  lemma {:induction false} SplitPartsFree<T>(s: seq<T>, sep: T)
    ensures NoneContains(Split(s, sep), sep)
  {
    if |s| > 0 {
      var p := s[..|s| - 1];
      SplitPartsFree(p, sep);
      var init := Split(p, sep);
      var parts := Split(s, sep);
      if s[|s| - 1] != sep {
        forall i | 0 <= i < |parts| ensures sep !in parts[i] {
          if i < |init| - 1 {
            assert parts[i] == init[i];
          } else {
            assert parts[i] == init[|init| - 1] + [s[|s| - 1]];
          }
        }
      }
    }
  }

  /** Splitting one more element either opens a new empty part (a separator)
      or extends the last part. */
  lemma SplitSnoc<T>(p: seq<T>, x: T, sep: T)
    ensures var init := Split(p, sep);
      Split(p + [x], sep) == if x == sep then init + [[]] else init[..|init| - 1] + [init[|init| - 1] + [x]]
  {
    assert (p + [x])[..|p|] == p;
  }

  /** `SplitSnoc` for a split already known as its finished parts and the
      part still open. */
  lemma SplitStep<T>(p: seq<T>, x: T, sep: T, closed: seq<seq<T>>, open: seq<T>)
    requires Split(p, sep) == closed + [open]
    ensures Split(p + [x], sep) == if x == sep then closed + [open] + [[]] else closed + [open + [x]]
  {
    SplitSnoc(p, x, sep);
    var init := closed + [open];
    assert init[..|init| - 1] == closed;
  }

  /** Joining the parts of a split with the separator gives back the input. */
  lemma {:induction false} JoinSplit<T>(s: seq<T>, sep: T)
    ensures Join(Split(s, sep), [sep]) == s
  {
    if |s| > 0 {
      var p, x := s[..|s| - 1], s[|s| - 1];
      assert s == p + [x];
      JoinSplit(p, sep);
      SplitSnoc(p, x, sep);
      if x == sep {
        JoinSnoc(Split(p, sep), [], [sep]);
      } else {
        JoinExtendLast(Split(p, sep), [sep], [x]);
      }
    }
  }

  /** Appending a row appends a separator and the row. */
  lemma JoinSnoc<T>(rows: seq<seq<T>>, r: seq<T>, sep: seq<T>)
    requires |rows| >= 1
    ensures Join(rows + [r], sep) == Join(rows, sep) + sep + r
  {
    assert (rows + [r])[..|rows|] == rows;
  }

  /** A sequence without the separator splits into itself alone. */
  lemma {:induction false} SplitFree<T>(r: seq<T>, sep: T)
    requires sep !in r
    ensures Split(r, sep) == [r]
  {
    if |r| > 0 {
      var p, x := r[..|r| - 1], r[|r| - 1];
      NotInFront(r, sep);
      SplitFree(p, sep);
      SplitStep(p, x, sep, [], p);
      assert r == p + [x];
    }
  }

  /** An element missing from a sequence is missing from its front. */
  lemma NotInFront<T>(r: seq<T>, y: T)
    requires |r| > 0 && y !in r
    ensures y !in r[..|r| - 1]
  {
    var front := r[..|r| - 1];
    forall z | z in front ensures z != y { assert z in r; }
  }

  /** Appending a separator and a separator-free tail adds exactly that tail as
      a new last part. */
  lemma {:induction false} SplitAppendPart<T>(a: seq<T>, b: seq<T>, sep: T)
    requires sep !in b
    ensures Split(a + [sep] + b, sep) == Split(a, sep) + [b]
  {
    if |b| == 0 {
      assert a + [sep] + b == a + [sep];
      SplitSnoc(a, sep, sep);
    } else {
      var b', y := b[..|b| - 1], b[|b| - 1];
      NotInFront(b, sep);
      SplitAppendPart(a, b', sep);
      SplitStep(a + [sep] + b', y, sep, Split(a, sep), b');
      assert b == b' + [y];
      assert a + [sep] + b == (a + [sep] + b') + [y];
    }
  }

  /** Splitting a join of separator-free rows gives back the rows (a join of no
      rows is empty and splits into one empty part, hence the non-empty
      requirement). */
  lemma {:induction false} SplitJoin<T>(rows: seq<seq<T>>, sep: T)
    requires |rows| >= 1
    requires NoneContains(rows, sep)
    ensures Split(Join(rows, [sep]), sep) == rows
  {
    if |rows| == 1 {
      SplitFree(rows[0], sep);
    } else {
      var init := rows[..|rows| - 1];
      assert NoneContains(init, sep) by {
        forall i | 0 <= i < |init| ensures sep !in init[i] {
          assert init[i] == rows[i];
        }
      }
      assert sep !in rows[|rows| - 1];
      SplitJoin(init, sep);
      SplitAppendPart(Join(init, [sep]), rows[|rows| - 1], sep);
      assert rows == init + [rows[|rows| - 1]];
    }
  }
}
