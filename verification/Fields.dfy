/**
Comma-separated field lists and the `Type{...}` frames around them, as texts: what the
helper functions of the message library compute.
*/
module Fields {
  import opened Messages

  /** The first position of c at or after from. */
  function Find(s: string, c: char, from: nat): (r: Option<nat>)
    ensures match r
      case None => forall i :: from <= i < |s| ==> s[i] != c
      case Some(p) => from <= p < |s| && s[p] == c && forall i :: from <= i < p ==> s[i] != c
    decreases |s| - from
  {
    if from >= |s| then None else if s[from] == c then Some(from) else Find(s, c, from + 1)
  }

  // ---------------------------------------------------------------- frames

  function Frame(name: string, body: string): string { name + ("{" + (body + "}")) }

  /** Splits a text at its first brace and drops the last character of what follows.  When the
      brace is that last character the length to keep wraps around and nothing is left. */
  function Unframe(s: string): (string, string) {
    match Find(s, '{', 0)
    case None => ("", s)
    case Some(p) => (s[..p], if p + 1 < |s| then s[p + 1..|s| - 1] else "")
  }

  // ---------------------------------------------------------------- field lists

  function Join(fields: seq<string>): string {
    if fields == [] then "" else fields[0] + Following(fields[1..])
  }

  function Following(fields: seq<string>): string {
    if fields == [] then "" else ", " + (fields[0] + Following(fields[1..]))
  }

  datatype Field = Field(text: string, next: nat)

  /** The field at a cursor, and where the cursor goes: behind the comma and one more character,
      or to the end.  A cursor beyond the end throws unless a comma follows it. */
  function NextField(s: string, pos: nat): Result<Field> {
    match Find(s, ',', pos)
    case None => if pos <= |s| then Ok(Field(s[pos..], |s|)) else Thrown
    case Some(r) => Ok(Field(s[pos..r], r + 2))
  }

  datatype FieldList = FieldList(texts: seq<string>, next: nat)

  /** Some fields, and then what is read behind them. */
  function Then(first: seq<string>, more: Result<FieldList>): Result<FieldList> {
    match more
    case Thrown => Thrown
    case Ok(fs) => Ok(FieldList(first + fs.texts, fs.next))
  }

  function ReadFields(s: string, pos: nat, n: nat): (r: Result<FieldList>)
    ensures r.Ok? ==> |r.value.texts| == n
    decreases n
  {
    if n == 0 then Ok(FieldList([], pos))
    else
      match NextField(s, pos)
      case Thrown => Thrown
      case Ok(f) => Then([f.text], ReadFields(s, f.next, n - 1))
  }

  /** Where the fields start: behind the first brace; without a brace npos + 1 wraps to 0. */
  function StartOfFields(s: string): nat {
    match Find(s, '{', 0)
    case None => 0
    case Some(p) => p + 1
  }

  function Blanks(n: nat): seq<string> { if n == 0 then [] else [""] + Blanks(n - 1) }

  predicate Lacks(field: string, c: char) { c !in field }

  predicate AllLack(fields: seq<string>, c: char) {
    forall i :: 0 <= i < |fields| ==> Lacks(fields[i], c)
  }

  predicate PlainField(field: string) { Lacks(field, '{') && Lacks(field, ',') }

  predicate Plain(fields: seq<string>) {
    forall i :: 0 <= i < |fields| ==> PlainField(fields[i])
  }

  // ---------------------------------------------------------------- lemmas

  lemma {:induction false} FindAt(s: string, c: char, from: nat, p: nat)
    requires from <= p < |s| && s[p] == c && forall i :: from <= i < p ==> s[i] != c
    ensures Find(s, c, from) == Some(p)
    decreases p - from
  {
    if from < p {
      FindAt(s, c, from + 1, p);
    }
  }

  /** Taking a frame apart gives back its name and its body, whatever braces the body has. */
  lemma UnframeFrame(name: string, body: string)
    requires '{' !in name
    ensures Unframe(Frame(name, body)) == (name, body)
  {
    var s := Frame(name, body);
    assert s[|name|] == '{';
    FindAt(s, '{', 0, |name|);
    assert s[..|name|] == name;
    assert s[|name| + 1..|s| - 1] == body;
  }

  /** What taking apart does to any text: without a brace there is no name; the last character of
      what follows the first brace goes, whatever it is; nothing follows, nothing goes. */
  lemma UnframeIs(name: string, body: string, last: char)
    requires '{' !in name
    ensures Unframe(name) == ("", name)
    ensures Unframe(name + "{") == (name, "")
    ensures Unframe(name + ("{" + (body + [last]))) == (name, body)
  {
    forall i | 0 <= i < |name| ensures name[i] != '{' {
      assert name[i] in name;
    }
    var short, long := name + "{", name + ("{" + (body + [last]));
    FindAt(short, '{', 0, |name|);
    FindAt(long, '{', 0, |name|);
    assert short[..|name|] == name;
    assert long[..|name|] == name && long[|name| + 1..|long| - 1] == body;
  }

  lemma FieldBeforeComma(pre: string, v: string, rest: string)
    requires ',' !in v
    ensures NextField(pre + (v + (", " + rest)), |pre|) == Ok(Field(v, |pre| + |v| + 2))
  {
    var s := pre + (v + (", " + rest));
    assert s[|pre| + |v|] == ',';
    assert forall i :: 0 <= i < |v| ==> s[|pre| + i] == v[i];
    assert forall i :: |pre| <= i < |pre| + |v| ==> s[i] == v[i - |pre|];
    FindAt(s, ',', |pre|, |pre| + |v|);
    assert s[|pre|..|pre| + |v|] == v;
  }

  lemma LastField(pre: string, v: string)
    requires ',' !in v
    ensures NextField(pre + v, |pre|) == Ok(Field(v, |pre| + |v|))
  {
    var s := pre + v;
    assert forall i :: |pre| <= i < |s| ==> s[i] == v[i - |pre|];
    assert s[|pre|..] == v;
  }

  lemma ThenThen(a: seq<string>, b: seq<string>, more: Result<FieldList>)
    ensures Then(a, Then(b, more)) == Then(a + b, more)
    ensures Then([], more) == more
  {
    if more.Ok? {
      assert a + (b + more.value.texts) == (a + b) + more.value.texts;
      assert [] + more.value.texts == more.value.texts;
    }
  }

  /** Reading n fields from a cursor is reading some and then the others. */
  lemma {:induction false} ReadInTwo(s: string, pos: nat, n: nat, m: nat)
    ensures ReadFields(s, pos, n + m) == match ReadFields(s, pos, n)
      case Thrown => Thrown
      case Ok(fs) => Then(fs.texts, ReadFields(s, fs.next, m))
    decreases n
  {
    if n == 0 {
      ThenThen([], [], ReadFields(s, pos, m));
    } else {
      match NextField(s, pos)
      case Thrown =>
      case Ok(f) =>
        ReadInTwo(s, f.next, n - 1, m);
        match ReadFields(s, f.next, n - 1)
        case Thrown =>
        case Ok(fs) => ThenThen([f.text], fs.texts, ReadFields(s, fs.next, m));
    }
  }

  lemma ReadOne(s: string, pos: nat)
    ensures ReadFields(s, pos, 1) == match NextField(s, pos)
      case Thrown => Thrown
      case Ok(f) => Ok(FieldList([f.text], f.next))
  {
    match NextField(s, pos)
    case Thrown =>
    case Ok(f) =>
      assert ReadFields(s, f.next, 0) == Ok(FieldList([], f.next));
      assert [f.text] + [] == [f.text];
  }

  lemma ReadTwo(s: string, pos: nat)
    ensures ReadFields(s, pos, 2) == match NextField(s, pos)
      case Thrown => Thrown
      case Ok(f) =>
        match NextField(s, f.next)
        case Thrown => Thrown
        case Ok(g) => Ok(FieldList([f.text, g.text], g.next))
  {
    match NextField(s, pos)
    case Thrown =>
    case Ok(f) =>
      ReadOne(s, f.next);
      assert forall t :: [f.text] + [t] == [f.text, t];
  }

  lemma JoinStep(pre: string, v: string, rest: seq<string>)
    requires rest != []
    ensures pre + Join([v] + rest) == pre + (v + (", " + Join(rest)))
    ensures pre + Join([v] + rest) == (pre + v + ", ") + Join(rest)
  {
    assert ([v] + rest)[1..] == rest;
    assert Following(rest) == ", " + Join(rest);
    assert pre + (v + (", " + Join(rest))) == (pre + v + ", ") + Join(rest);
  }

  lemma {:induction false} ReadJoined(pre: string, vs: seq<string>)
    requires vs != [] && AllLack(vs, ',')
    ensures ReadFields(pre + Join(vs), |pre|, |vs|) == Ok(FieldList(vs, |pre + Join(vs)|))
    decreases |vs|
  {
    var v, rest := vs[0], vs[1..];
    assert vs == [v] + rest;
    var s := pre + Join(vs);
    if rest == [] {
      assert Join(vs) == v + "" == v;
      LastField(pre, v);
      ReadOne(s, |pre|);
    } else {
      JoinStep(pre, v, rest);
      ReadJoined(pre + v + ", ", rest);
      FieldBeforeComma(pre, v, Join(rest));
    }
  }

  /** At the end of the text the cursor stays and every further field is empty. */
  lemma {:induction false} ReadBlanks(s: string, n: nat)
    ensures ReadFields(s, |s|, n) == Ok(FieldList(Blanks(n), |s|))
  {
    if n > 0 {
      assert s[|s|..] == "";
      ReadBlanks(s, n - 1);
    }
  }

  lemma ReadBoth(s: string, pos: nat, fs: FieldList, gs: FieldList, m: nat)
    requires ReadFields(s, pos, |fs.texts|) == Ok(fs) && ReadFields(s, fs.next, m) == Ok(gs)
    ensures ReadFields(s, pos, |fs.texts| + m) == Ok(FieldList(fs.texts + gs.texts, gs.next))
  {
    ReadInTwo(s, pos, |fs.texts|, m);
  }

  lemma ReadWhole(s: string, vs: seq<string>)
    requires s == Join(vs) && vs != [] && AllLack(vs, ',')
    ensures ReadFields(s, 0, |vs|) == Ok(FieldList(vs, |s|))
  {
    var pre := "";
    ReadJoined(pre, vs);
    assert pre + Join(vs) == s;
  }

  /** Splitting undoes joining: the cursor reader returns exactly the fields, in order, ends at
      the end of the text, and then yields empty fields. */
  lemma SplitUndoesJoin(vs: seq<string>, more: nat)
    requires vs != [] && AllLack(vs, ',')
    ensures ReadFields(Join(vs), 0, |vs| + more) == Ok(FieldList(vs + Blanks(more), |Join(vs)|))
  {
    var s := Join(vs);
    ReadWhole(s, vs);
    ReadBlanks(s, more);
    ReadBoth(s, 0, FieldList(vs, |s|), FieldList(Blanks(more), |s|), more);
  }

  lemma {:induction false} FollowingHasNoBrace(vs: seq<string>)
    requires AllLack(vs, '{')
    ensures Lacks(Following(vs), '{')
  {
    if vs != [] {
      assert Lacks(vs[0], '{');
      FollowingHasNoBrace(vs[1..]);
    }
  }

  /** Fields without braces are read from the start of the text. */
  lemma JoinedStartsAtZero(vs: seq<string>)
    requires AllLack(vs, '{')
    ensures StartOfFields(Join(vs)) == 0
  {
    if vs != [] {
      assert Lacks(vs[0], '{');
      FollowingHasNoBrace(vs[1..]);
    }
  }

  /** The first n of a list of fields, and the others behind them. */
  lemma ReadPart(s: string, pos: nat, vs: seq<string>, n: nat)
    requires n <= |vs| && ReadFields(s, pos, |vs|) == Ok(FieldList(vs, |s|))
    ensures var r := ReadFields(s, pos, n);
      && r.Ok? && r.value.texts == vs[..n]
      && ReadFields(s, r.value.next, |vs| - n) == Ok(FieldList(vs[n..], |s|))
  {
    ReadInTwo(s, pos, n, |vs| - n);
  }

  /** The first n of a list of fields, and m of the others. */
  lemma ReadRange(s: string, vs: seq<string>, n: nat, m: nat)
    requires n + m <= |vs| && ReadFields(s, 0, |vs|) == Ok(FieldList(vs, |s|))
    ensures var r := ReadFields(s, 0, n);
      && r.Ok? && r.value.texts == vs[..n]
      && ReadFields(s, r.value.next, m).Ok? && ReadFields(s, r.value.next, m).value.texts == vs[n..n + m]
  {
    ReadPart(s, 0, vs, n);
    ReadPart(s, ReadFields(s, 0, n).value.next, vs[n..], m);
    assert vs[n..][..m] == vs[n..n + m];
  }

  /** A written field list is read back from its start. */
  lemma ReadPlain(vs: seq<string>)
    requires Plain(vs) && vs != []
    ensures StartOfFields(Join(vs)) == 0
    ensures ReadFields(Join(vs), 0, |vs|) == Ok(FieldList(vs, |Join(vs)|))
  {
    assert forall i :: 0 <= i < |vs| ==> PlainField(vs[i]);
    JoinedStartsAtZero(vs);
    ReadWhole(Join(vs), vs);
  }

  lemma {:induction false} FollowingAppend(vs: seq<string>, v: string)
    ensures Following(vs + [v]) == Following(vs) + (", " + v)
  {
    if vs == [] {
      assert [v][1..] == [];
      assert [] + [v] == [v];
    } else {
      assert (vs + [v])[1..] == vs[1..] + [v];
      FollowingAppend(vs[1..], v);
    }
  }

  /** Writing one more field. */
  lemma JoinAppend(vs: seq<string>, v: string)
    requires vs != []
    ensures Join(vs + [v]) == Join(vs) + (", " + v)
  {
    assert (vs + [v])[1..] == vs[1..] + [v];
    FollowingAppend(vs[1..], v);
  }
}
