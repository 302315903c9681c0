/**
 The raw, NUL-separated output of `git diff-tree -z --raw` and the index-driven parser that reads
 it (internal/githistory/walk.go).
 */
module RawDiff {
  import opened Wrappers
  import opened Grouping
  import opened Strings

  datatype ChangedPath = ChangedPath(status: char, oldPath: string, newPath: string, oldBlob: string, newBlob: string)

  datatype ParseError = BadEntry(header: string) | MissingPath(header: string) | MissingNewPath(header: string)

  const SYMLINK := "120000"

  predicate TwoPaths(status: char) {
    status == 'R' || status == 'C'
  }

  // A changed path as the rest of the import relies on it: a status the identity registry knows, no old
  // path for an addition, no new path for a deletion, one path for a modification.
  predicate Shaped(c: ChangedPath) {
    match c.status
    case 'A' => c.oldPath == ""
    case 'D' => c.newPath == ""
    case 'M' => c.oldPath == c.newPath
    case _ => TwoPaths(c.status)
  }

  function Change(status: char, path: string, newPath: string, oldBlob: string, newBlob: string): (c: ChangedPath)
    ensures Shaped(c)
  {
    if TwoPaths(status) then ChangedPath(status, path, newPath, oldBlob, newBlob)
    else if status == 'A' then ChangedPath('A', "", path, oldBlob, newBlob)
    else if status == 'D' then ChangedPath('D', path, "", oldBlob, newBlob)
    else ChangedPath('M', path, path, oldBlob, newBlob)
  }

  function Prepend(cs: seq<ChangedPath>, r: Result<seq<ChangedPath>,
                   ParseError>): Result<seq<ChangedPath>, ParseError>
  {
    match r
    case Ok(more) => Ok(cs + more)
    case Err(e) => Err(e)
  }

  // What reading from field i on yields.
  function ParseFrom(fields: seq<string>, i: nat): (r: Result<seq<ChangedPath>, ParseError>)
    decreases |fields| - i
  {
    if i >= |fields| then Ok([])
    else if !HasPrefix(fields[i], ":") then ParseFrom(fields, i + 1)
    else
      var header := fields[i];
      var parts := Fields(header);
      if |parts| != 5 then Err(BadEntry(header))
      else if i + 1 >= |fields| then Err(MissingPath(header))
      else
        var status := parts[4][0];
        var width := if TwoPaths(status) then 3 else 2;
        if TrimPrefix(parts[0], ":") == SYMLINK || parts[1] == SYMLINK then ParseFrom(fields, i + width)
        else if i + width > |fields| then Err(MissingNewPath(header))
        else
          var newPath := if width == 3 then fields[i + 2] else "";
          Prepend([Change(status, fields[i + 1], newPath, parts[2], parts[3])], ParseFrom(fields, i + width))
  }

  method ParseRawDiffTree(out: string) returns (r: Result<seq<ChangedPath>, ParseError>)
    ensures r == ParseFrom(Split(out, '\0'), 0)
  {
    var fields := Split(out, '\0');
    var changes: seq<ChangedPath> := [];
    var i := 0;
    PrependNothing(ParseFrom(fields, 0));
    while i < |fields|
      invariant 0 <= i
      invariant Prepend(changes, ParseFrom(fields, i)) == ParseFrom(fields, 0)
    {
      var f := fields[i];
      if f == "" || !HasPrefix(f, ":") {
        i := i + 1;
        continue;
      }
      var parts := Fields(f);
      if |parts| != 5 {
        return Err(BadEntry(f));
      }
      var status := parts[4][0];
      var oldMode, newMode := TrimPrefix(parts[0], ":"), parts[1];
      var oldBlob, newBlob := parts[2], parts[3];
      ghost var start := i;
      i := i + 1;
      if i >= |fields| {
        return Err(MissingPath(f));
      }
      var path := fields[i];
      if TwoPaths(status) {
        if oldMode == SYMLINK || newMode == SYMLINK {
          i := i + 2;
          continue;
        }
      } else if oldMode == SYMLINK || newMode == SYMLINK {
        i := i + 1;
        continue;
      }
      var change;
      if TwoPaths(status) {
        i := i + 1;
        if i >= |fields| {
          return Err(MissingNewPath(f));
        }
        change := ChangedPath(status, path, fields[i], oldBlob, newBlob);
      } else if status == 'A' {
        change := ChangedPath('A', "", path, oldBlob, newBlob);
      } else if status == 'D' {
        change := ChangedPath('D', path, "", oldBlob, newBlob);
      } else {
        change := ChangedPath('M', path, path, oldBlob, newBlob);
      }
      i := i + 1;
      PrependTwice(changes, change, ParseFrom(fields, i));
      changes := changes + [change];
    }
    assert changes + [] == changes;
    return Ok(changes);
  }

  lemma {:induction false} PrependNothing(r: Result<seq<ChangedPath>, ParseError>)
    ensures Prepend([], r) == r
  {
    if r.Ok? {
      assert [] + r.value == r.value;
    }
  }

  lemma {:induction false} PrependTwice(cs: seq<ChangedPath>, c: ChangedPath, r: Result<seq<ChangedPath>, ParseError>)
    ensures Prepend(cs, Prepend([c], r)) == Prepend(cs + [c], r)
  {
    if r.Ok? {
      assert cs + ([c] + r.value) == (cs + [c]) + r.value;
    }
  }

  // ---- the printer ----

  // status is the whole status field: a letter, with a similarity score after R and C.
  datatype Entry = Entry(oldMode: string, newMode: string, oldBlob: string, newBlob: string, status: string,
                         path: string, newPath: string)

  ghost predicate Token(s: string) {
    Word(s) && '\0' !in s
  }

  // Anything git can print: the paths are free of NUL and otherwise arbitrary.
  ghost predicate Printable(e: Entry) {
    && Token(e.oldMode) && Token(e.newMode) && Token(e.oldBlob) && Token(e.newBlob) && Token(e.status)
    && '\0' !in e.path && '\0' !in e.newPath
  }

  ghost predicate AllPrintable(es: seq<Entry>) {
    forall i :: 0 <= i < |es| ==> Printable(es[i])
  }

  function Header(e: Entry): string {
    ":" + e.oldMode + " " + (e.newMode + " " + (e.oldBlob + " " + (e.newBlob + " " + e.status)))
  }

  predicate Renames(e: Entry) {
    e.status != "" && TwoPaths(e.status[0])
  }

  function Printed(e: Entry): string {
    Header(e) + "\0" + (e.path + "\0" + (if Renames(e) then e.newPath + "\0" else ""))
  }

  function PrintedAll(es: seq<Entry>): string {
    if es == [] then "" else Printed(es[0]) + PrintedAll(es[1..])
  }

  predicate Symlink(e: Entry) {
    e.oldMode == SYMLINK || e.newMode == SYMLINK
  }

  // What is to be read back: every entry but those that touch a symbolic link.
  ghost function ToRead(es: seq<Entry>): seq<ChangedPath>
    requires AllPrintable(es)
  {
    if es == [] then []
    else Own(es[0]) + ToRead(es[1..])
  }

  // A rename or copy leads from its first path to its second, an addition has no old path and a deletion
  // no new one; anything else happens on one path and is a modification.
  ghost function Own(e: Entry): seq<ChangedPath>
    requires Printable(e)
  {
    if Symlink(e) then []
    else
      [match e.status[0]
       case 'R' => ChangedPath('R', e.path, e.newPath, e.oldBlob, e.newBlob)
       case 'C' => ChangedPath('C', e.path, e.newPath, e.oldBlob, e.newBlob)
       case 'A' => ChangedPath('A', "", e.path, e.oldBlob, e.newBlob)
       case 'D' => ChangedPath('D', e.path, "", e.oldBlob, e.newBlob)
       case _ => ChangedPath('M', e.path, e.path, e.oldBlob, e.newBlob)]
  }

  function OwnFields(e: Entry): seq<string> {
    [Header(e), e.path] + (if Renames(e) then [e.newPath] else [])
  }

  function AllFields(es: seq<Entry>): seq<string> {
    if es == [] then [] else OwnFields(es[0]) + AllFields(es[1..])
  }

  // What is printed ends in a NUL, after which Split finds one more field.
  function PrintedFields(es: seq<Entry>): seq<string> {
    AllFields(es) + [""]
  }

  lemma {:induction false} HeaderFields(e: Entry)
    requires Printable(e)
    ensures Fields(Header(e)) == [":" + e.oldMode, e.newMode, e.oldBlob, e.newBlob, e.status]
    ensures HasPrefix(Header(e), ":") && '\0' !in Header(e)
    ensures TrimPrefix(":" + e.oldMode, ":") == e.oldMode
  {
    var r3 := e.newBlob + " " + e.status;
    var r2 := e.oldBlob + " " + r3;
    var r1 := e.newMode + " " + r2;
    FieldsOfWordThen(":" + e.oldMode, r1);
    FieldsOfWordThen(e.newMode, r2);
    FieldsOfWordThen(e.oldBlob, r3);
    FieldsOfWordThen(e.newBlob, e.status);
    FieldsOfWord(e.status);
    assert '\0' !in r3 && '\0' !in r2 && '\0' !in r1;
  }

  lemma ThreeParts(a: string, b: string, c: string, rest: string)
    ensures (a + "\0" + (b + "\0" + (c + "\0"))) + rest == a + "\0" + (b + "\0" + (c + "\0" + rest))
  {}

  lemma TwoParts(a: string, b: string, rest: string)
    ensures (a + "\0" + (b + "\0" + "")) + rest == a + "\0" + (b + "\0" + rest)
  {}

  lemma {:induction false} SplitOne(e: Entry, rest: string)
    requires Printable(e)
    ensures Split(Printed(e) + rest, '\0') == OwnFields(e) + Split(rest, '\0')
  {
    HeaderFields(e);
    hide Split, Fields, Header, Token;
    if Renames(e) {
      ThreeParts(Header(e), e.path, e.newPath, rest);
      SplitTwo(Header(e), e.path, e.newPath + "\0" + rest);
      SplitAtSeparator(e.newPath, '\0', rest);
    } else {
      TwoParts(Header(e), e.path, rest);
      SplitTwo(Header(e), e.path, rest);
    }
  }

  lemma {:induction false} SplitTwo(x: string, y: string, rest: string)
    requires '\0' !in x && '\0' !in y
    ensures Split(x + "\0" + (y + "\0" + rest), '\0') == [x, y] + Split(rest, '\0')
  {
    SplitAtSeparator(y, '\0', rest);
    SplitAtSeparator(x, '\0', y + "\0" + rest);
  }

  lemma {:induction false} SplitPrintedThen(es: seq<Entry>, rest: string)
    requires AllPrintable(es)
    ensures Split(PrintedAll(es) + rest, '\0') == AllFields(es) + Split(rest, '\0')
  {
    hide Split, Printed, OwnFields;
    if es == [] {
      assert "" + rest == rest;
      assert AllFields(es) + Split(rest, '\0') == Split(rest, '\0');
    } else {
      SplitPrintedThen(es[1..], rest);
      SplitOne(es[0], PrintedAll(es[1..]) + rest);
      Regroup(Printed(es[0]), PrintedAll(es[1..]), rest);
      Regroup(OwnFields(es[0]), AllFields(es[1..]), Split(rest, '\0'));
    }
  }

  lemma {:induction false} SplitPrinted(es: seq<Entry>)
    requires AllPrintable(es)
    ensures Split(PrintedAll(es), '\0') == PrintedFields(es)
  {
    SplitPrintedThen(es, "");
    assert PrintedAll(es) + "" == PrintedAll(es);
  }

  // Reading one entry consumes exactly its own fields.
  lemma {:induction false} ReadOne(fields: seq<string>, i: nat, e: Entry)
    requires Printable(e) && i + |OwnFields(e)| <= |fields| && fields[i..i + |OwnFields(e)|] == OwnFields(e)
    ensures ParseFrom(fields, i) == Prepend(Own(e), ParseFrom(fields, i + |OwnFields(e)|))
  {
    HeaderFields(e);
    PrependNothing(ParseFrom(fields, i + |OwnFields(e)|));
    var own := fields[i..i + |OwnFields(e)|];
    assert fields[i] == own[0] == Header(e);
    assert fields[i + 1] == own[1] == e.path;
    if Renames(e) {
      assert fields[i + 2] == own[2] == e.newPath;
    }
  }

  lemma {:induction false} ReadFields(fields: seq<string>, i: nat, es: seq<Entry>)
    requires AllPrintable(es) && i <= |fields| && fields[i..] == PrintedFields(es)
    ensures ParseFrom(fields, i) == Ok(ToRead(es))
    decreases |es|
  {
    if es == [] {
      ReadEnd(fields, i);
    } else {
      assert PrintedFields(es) == OwnFields(es[0]) + PrintedFields(es[1..]);
      DropOwn(fields, i, OwnFields(es[0]), PrintedFields(es[1..]));
      ReadFields(fields, i + |OwnFields(es[0])|, es[1..]);
      ReadMore(fields, i, es[0], ToRead(es[1..]));
      assert ToRead(es) == Own(es[0]) + ToRead(es[1..]);
    }
  }

  lemma {:induction false} ReadMore(fields: seq<string>, i: nat, e: Entry, rest: seq<ChangedPath>)
    requires Printable(e) && i + |OwnFields(e)| <= |fields| && fields[i..i + |OwnFields(e)|] == OwnFields(e)
    requires ParseFrom(fields, i + |OwnFields(e)|) == Ok(rest)
    ensures ParseFrom(fields, i) == Ok(Own(e) + rest)
  {
    ReadOne(fields, i, e);
  }

  lemma {:induction false} ReadEnd(fields: seq<string>, i: nat)
    requires i <= |fields| && fields[i..] == [""]
    ensures ParseFrom(fields, i) == Ok([])
  {
    assert fields[i] == fields[i..][0] == "";
  }

  lemma {:induction false} DropOwn(fields: seq<string>, i: nat, own: seq<string>, rest: seq<string>)
    requires i <= |fields| && fields[i..] == own + rest
    ensures i + |own| <= |fields| && fields[i..i + |own|] == own && fields[i + |own|..] == rest
  {
    assert fields[i + |own|..] == fields[i..][|own|..];
    assert fields[i..i + |own|] == fields[i..][..|own|];
  }

  /** Reading back anything git prints gives the same list, symbolic links dropped and type changes
      read as modifications. */
  lemma {:induction false} ParseInvertsPrint(es: seq<Entry>)
    requires AllPrintable(es)
    ensures ParseFrom(Split(PrintedAll(es), '\0'), 0) == Ok(ToRead(es))
  {
    SplitPrinted(es);
    ReadFields(PrintedFields(es), 0, es);
  }

  /** Whatever the fields, only shaped changes come out. */
  lemma {:induction false} ParsedAreShaped(fields: seq<string>, i: nat)
    ensures ParseFrom(fields, i).Ok? ==> forall c :: c in ParseFrom(fields, i).value ==> Shaped(c)
    decreases |fields| - i
  {
    if i < |fields| {
      ParsedAreShaped(fields, i + 1);
      ParsedAreShaped(fields, i + 2);
      ParsedAreShaped(fields, i + 3);
    }
  }

  // ---- output that is cut off or malformed ----

  // What complete entries are followed by decides whether reading fails.
  lemma {:induction false} FailsAfter(fields: seq<string>, i: nat, es: seq<Entry>, e: ParseError)
    requires AllPrintable(es) && i + |AllFields(es)| <= |fields| && fields[i..i + |AllFields(es)|] == AllFields(es)
    requires ParseFrom(fields, i + |AllFields(es)|) == Err(e)
    ensures ParseFrom(fields, i) == Err(e)
    decreases |es|
  {
    hide OwnFields, ParseFrom;
    if es != [] {
      var own, more := OwnFields(es[0]), AllFields(es[1..]);
      assert fields[i..i + |own|] == fields[i..i + |AllFields(es)|][..|own|] == own;
      assert fields[i + |own|..i + |own| + |more|] == fields[i..i + |AllFields(es)|][|own|..] == more;
      FailsAfter(fields, i + |own|, es[1..], e);
      ReadOne(fields, i, es[0]);
    }
  }

  lemma {:induction false} FailsAtTheEnd(es: seq<Entry>, rest: string, last: seq<string>, e: ParseError)
    requires AllPrintable(es) && Split(rest, '\0') == last
    requires ParseFrom(AllFields(es) + last, |AllFields(es)|) == Err(e)
    ensures ParseFrom(Split(PrintedAll(es) + rest, '\0'), 0) == Err(e)
  {
    SplitPrintedThen(es, rest);
    var fields := AllFields(es) + last;
    assert fields[0..0 + |AllFields(es)|] == AllFields(es);
    FailsAfter(fields, 0, es, e);
  }

  /** Output that ends after the header of an entry is refused for its missing path, whatever came before. */
  lemma {:induction false} MissingPathIsRefused(es: seq<Entry>, e: Entry)
    requires AllPrintable(es) && Printable(e)
    ensures ParseFrom(Split(PrintedAll(es) + Header(e), '\0'), 0) == Err(MissingPath(Header(e)))
  {
    HeaderFields(e);
    SplitWhole(Header(e), '\0');
    FailsAtTheEnd(es, Header(e), [Header(e)], MissingPath(Header(e)));
  }

  /** Output that ends after the first path of a rename or copy is refused for the missing second one, unless
      the entry is passed over because it touches a symbolic link. */
  lemma {:induction false} MissingNewPathIsRefused(es: seq<Entry>, e: Entry)
    requires AllPrintable(es) && Printable(e) && Renames(e) && !Symlink(e)
    ensures ParseFrom(Split(PrintedAll(es) + (Header(e) + "\0" + e.path), '\0'), 0) == Err(MissingNewPath(Header(e)))
  {
    HeaderFields(e);
    SplitWhole(e.path, '\0');
    SplitAtSeparator(Header(e), '\0', e.path);
    FailsAtTheEnd(es, Header(e) + "\0" + e.path, [Header(e), e.path], MissingNewPath(Header(e)));
  }

  /** An entry whose header does not have five fields is refused, and named. */
  lemma {:induction false} BadHeaderIsRefused(es: seq<Entry>, header: string, rest: string)
    requires AllPrintable(es) && HasPrefix(header, ":") && '\0' !in header && |Fields(header)| != 5
    ensures ParseFrom(Split(PrintedAll(es) + (header + "\0" + rest), '\0'), 0) == Err(BadEntry(header))
  {
    SplitAtSeparator(header, '\0', rest);
    FailsAtTheEnd(es, header + "\0" + rest, [header] + Split(rest, '\0'), BadEntry(header));
  }

  // These are the changes of some commit, as the parser gives them.
  ghost predicate Parsed(paths: seq<ChangedPath>) {
    exists fields :: ParseFrom(fields, 0) == Ok(paths)
  }
}
