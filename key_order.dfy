/** The order in which grouped results come out: text compares by code point
    with a proper prefix first, numbers numerically, and multi-column keys
    lexicographically, column by column. */
module KeyOrder {
  import opened Records

  predicate TextLess(a: string, b: string)
    decreases |a|
  {
    if |a| == 0 then |b| > 0
    else if |b| == 0 then false
    else if a[0] != b[0] then a[0] < b[0]
    else TextLess(a[1..], b[1..])
  }

  /** Atoms of one dimension are all text or all numbers; numbers are put
      first only so that the order is total. */
  predicate AtomLess(a: Atom, b: Atom)
  {
    match (a, b)
    case (Num(x), Num(y)) => x < y
    case (Str(s), Str(t)) => TextLess(s, t)
    case (Num(_), Str(_)) => true
    case (Str(_), Num(_)) => false
  }

  predicate KeyLess(a: Key, b: Key)
    decreases |a|
  {
    if |a| == 0 then |b| > 0
    else if |b| == 0 then false
    else if a[0] != b[0] then AtomLess(a[0], b[0])
    else KeyLess(a[1..], b[1..])
  }

  lemma {:induction false} TextLessIrreflexive(a: string)
    ensures !TextLess(a, a)
  {
    if |a| > 0 {
      TextLessIrreflexive(a[1..]);
    }
  }

  lemma {:induction false} TextLessTransitive(a: string, b: string, c: string)
    requires TextLess(a, b) && TextLess(b, c)
    ensures TextLess(a, c)
    decreases |a|
  {
    if |a| > 0 && |b| > 0 && |c| > 0 && a[0] == b[0] && b[0] == c[0] {
      TextLessTransitive(a[1..], b[1..], c[1..]);
    }
  }

  lemma {:induction false} TextLessTotal(a: string, b: string)
    requires a != b
    ensures TextLess(a, b) || TextLess(b, a)
    decreases |a|
  {
    if |a| > 0 && |b| > 0 && a[0] == b[0] {
      assert a == [a[0]] + a[1..] && b == [b[0]] + b[1..];
      TextLessTotal(a[1..], b[1..]);
    }
  }

  lemma AtomLessIrreflexive(a: Atom)
    ensures !AtomLess(a, a)
  {
    if a.Str? {
      TextLessIrreflexive(a.text);
    }
  }

  lemma AtomLessTransitive(a: Atom, b: Atom, c: Atom)
    requires AtomLess(a, b) && AtomLess(b, c)
    ensures AtomLess(a, c)
  {
    if a.Str? && b.Str? && c.Str? {
      TextLessTransitive(a.text, b.text, c.text);
    }
  }

  lemma AtomLessTotal(a: Atom, b: Atom)
    requires a != b
    ensures AtomLess(a, b) || AtomLess(b, a)
  {
    if a.Str? && b.Str? {
      TextLessTotal(a.text, b.text);
    }
  }

  lemma {:induction false} KeyLessIrreflexive(a: Key)
    ensures !KeyLess(a, a)
  {
    if |a| > 0 {
      KeyLessIrreflexive(a[1..]);
    }
  }

  lemma {:induction false} KeyLessTransitive(a: Key, b: Key, c: Key)
    requires KeyLess(a, b) && KeyLess(b, c)
    ensures KeyLess(a, c)
    decreases |a|
  {
    if |a| > 0 && |b| > 0 && |c| > 0 {
      if a[0] == b[0] && b[0] == c[0] {
        KeyLessTransitive(a[1..], b[1..], c[1..]);
      } else if a[0] != b[0] && b[0] != c[0] {
        AtomLessTransitive(a[0], b[0], c[0]);
        if a[0] == c[0] {
          AtomLessIrreflexive(a[0]);
        }
      }
    }
  }

  lemma {:induction false} KeyLessTotal(a: Key, b: Key)
    requires a != b
    ensures KeyLess(a, b) || KeyLess(b, a)
    decreases |a|
  {
    if |a| > 0 && |b| > 0 {
      if a[0] == b[0] {
        assert a == [a[0]] + a[1..] && b == [b[0]] + b[1..];
        KeyLessTotal(a[1..], b[1..]);
      } else {
        AtomLessTotal(a[0], b[0]);
      }
    }
  }

  /** Keys of one numeric column compare as their numbers (a year grouping). */
  lemma YearKeyLess(x: real, y: real)
    ensures KeyLess([Num(x)], [Num(y)]) <==> x < y
  {
    if x != y {
      assert [Num(x)][0] != [Num(y)][0];
    } else {
      KeyLessIrreflexive([Num(x)]);
    }
  }
}
