/** Strings as sequences of code units: UTF-16 ones for Java's, UTF-8 ones for Rust's. */
module Text {

  type CodeUnit = c: int | 0 <= c < 0x1_0000

  type Text = seq<CodeUnit>

  const SLASH: CodeUnit := 0x2F

  /** The order of both languages: by the first code unit that differs. */
  predicate Before(a: Text, b: Text) {
    b != [] && (a == [] || a[0] < b[0] || (a[0] == b[0] && Before(a[1..], b[1..])))
  }

  lemma {:induction false} BeforeIsIrreflexive(a: Text)
    ensures !Before(a, a)
  {
    if a != [] {
      BeforeIsIrreflexive(a[1..]);
    }
  }

  lemma {:induction false} BeforeIsTotal(a: Text, b: Text)
    ensures a == b || Before(a, b) || Before(b, a)
    ensures !(Before(a, b) && Before(b, a))
  {
    if a != [] && b != [] {
      BeforeIsTotal(a[1..], b[1..]);
      assert a == [a[0]] + a[1..] && b == [b[0]] + b[1..];
    }
  }

  lemma {:induction false} BeforeIsTransitive(a: Text, b: Text, c: Text)
    requires Before(a, b) && Before(b, c)
    ensures Before(a, c)
  {
    if a != [] && a[0] == b[0] == c[0] {
      BeforeIsTransitive(a[1..], b[1..], c[1..]);
    }
  }

  // ---- Sorted names ----

  function InsertName(names: seq<Text>, name: Text): seq<Text> {
    if names == [] || Before(name, names[0]) then [name] + names
    else if names[0] == name then names
    else [names[0]] + InsertName(names[1..], name)
  }

  ghost predicate NamesInOrder(names: seq<Text>) {
    forall i, j :: 0 <= i < j < |names| ==> Before(names[i], names[j])
  }

  lemma {:induction false} InsertNameKeeps(names: seq<Text>, name: Text)
    requires NamesInOrder(names)
    ensures NamesInOrder(InsertName(names, name)) && forall x :: x in InsertName(names, name) <==> x in names || x == name
  {
    hide Before;
    if names != [] {
      BeforeIsTotal(name, names[0]);
      assert forall x :: x in names <==> x == names[0] || x in names[1..];
      if Before(name, names[0]) {
        forall j | 1 <= j < |names| ensures Before(name, names[j]) {
          BeforeIsTransitive(name, names[0], names[j]);
        }
      } else if name != names[0] {
        InsertNameKeeps(names[1..], name);
        var rest := InsertName(names[1..], name);
        forall j | 0 <= j < |rest| ensures Before(names[0], rest[j]) {
          assert rest[j] in rest;
        }
      }
    }
  }

  lemma LastIsNew(names: seq<Text>)
    requires names != [] && NamesInOrder(names)
    ensures names[|names| - 1] !in names[..|names| - 1] && NamesInOrder(names[..|names| - 1])
    ensures forall x :: x in names <==> x in names[..|names| - 1] || x == names[|names| - 1]
  {
    hide Before;
    BeforeIsIrreflexive(names[|names| - 1]);
  }

  lemma {:induction false} SortedNamesAreUnique(a: seq<Text>, b: seq<Text>)
    requires NamesInOrder(a) && NamesInOrder(b) && forall x :: x in a <==> x in b
    ensures a == b
  {
    hide Before;
    assert (a != [] ==> a[0] in a) && (b != [] ==> b[0] in b);
    if a != [] && b != [] {
      BeforeIsTotal(a[0], b[0]);
      FirstIsNew(a);
      FirstIsNew(b);
      SortedNamesAreUnique(a[1..], b[1..]);
      assert a == [a[0]] + a[1..] && b == [b[0]] + b[1..];
    }
  }

  lemma FirstIsNew(a: seq<Text>)
    requires a != [] && NamesInOrder(a)
    ensures a[0] !in a[1..] && NamesInOrder(a[1..]) && forall x :: x in a <==> x == a[0] || x in a[1..]
  {
    hide Before;
    BeforeIsIrreflexive(a[0]);
  }

  /** What goes before: a name before any longer one that it begins, and the smaller unit at the first difference. */
  lemma {:induction false} BeforeIs(p: Text, x: CodeUnit, y: CodeUnit, a: Text, b: Text)
    ensures Before(p, p + [x] + a)
    ensures x < y ==> Before(p + [x] + a, p + [y] + b)
  {
    if p != [] {
      BeforeIs(p[1..], x, y, a, b);
      assert (p + [x] + a)[1..] == p[1..] + [x] + a && (p + [y] + b)[1..] == p[1..] + [y] + b;
    }
  }
}
