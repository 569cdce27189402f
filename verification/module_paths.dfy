/** Canonical bundle-local module paths: `/`-separated names without `.` or `..` segments. */
module ModulePaths {
  import opened Basics
  import opened Wrappers

  // ----- Splitting and joining at a separator

  function Split(path: string): (pieces: seq<string>)
    ensures pieces != []
  {
    SplitAt(path, '/')
  }

  function Join(pieces: seq<string>): string {
    if pieces == [] then ""
    else if |pieces| == 1 then pieces[0]
    else pieces[0] + "/" + Join(pieces[1..])
  }

  lemma {:induction false} SplitSlash(a: string, b: string)
    ensures Split(a + "/" + b) == Split(a) + Split(b)
  {
    var path := a + "/" + b;
    if a == "" {
      assert path[1..] == b;
    } else {
      assert path[1..] == a[1..] + "/" + b;
      SplitSlash(a[1..], b);
    }
  }

  lemma {:induction false} SplitWhole(name: string)
    requires '/' !in name
    ensures Split(name) == [name]
  {
    if name != "" {
      SplitWhole(name[1..]);
      assert [name[0]] + name[1..] == name;
    }
  }

  /** Joining names and splitting again gives the names back. */
  lemma {:induction false} SplitOfJoin(names: seq<string>)
    requires names != [] && forall n :: n in names ==> '/' !in n
    ensures Split(Join(names)) == names
  {
    SplitWhole(names[0]);
    if |names| > 1 {
      SplitSlash(names[0], Join(names[1..]));
      SplitOfJoin(names[1..]);
    }
  }

  /** Splitting and joining again gives the path back, and no piece holds a separator. */
  lemma {:induction false} JoinOfSplit(path: string)
    ensures Join(Split(path)) == path
    ensures forall n :: n in Split(path) ==> '/' !in n
  {
    if path != "" {
      JoinOfSplit(path[1..]);
      var rest := Split(path[1..]);
      assert rest[0] in rest;
      if path[0] == '/' {
        assert Split(path)[1..] == rest;
      } else if |rest| > 1 {
        assert Split(path)[1..] == rest[1..];
      }
    }
  }

  // ----- Path validation

  datatype PathError =
    | Empty
    | AbsoluteOrTrailingSeparator(path: string)
    | Backslash(path: string)
    | ControlCharacter(path: string)
    | EmptySegment(path: string)
    | Traversal(path: string)
    | DrivePrefix(path: string)

  predicate IsControl(c: char) { c < ' ' || c == '\U{7f}' }

  /** The second byte of the UTF-8 form is `:`, which needs an ASCII first character. */
  predicate HasDrive(path: string) {
    |path| >= 2 && path[0] < '\U{80}' && path[1] == ':'
  }

  function SegmentError(segments: seq<string>, path: string): Option<PathError> {
    if segments == [] then None
    else if segments[0] == "" then Some(EmptySegment(path))
    else if segments[0] == "." || segments[0] == ".." then Some(Traversal(path))
    else SegmentError(segments[1..], path)
  }

  /** `ModulePath::new`, with the checks in the source's order. */
  function NewPath(path: string): Result<string, PathError> {
    if path == "" then Err(Empty)
    else if path[0] == '/' || path[|path| - 1] == '/' then Err(AbsoluteOrTrailingSeparator(path))
    else if '\\' in path then Err(Backslash(path))
    else if exists c :: c in path && IsControl(c) then Err(ControlCharacter(path))
    else
      match SegmentError(Split(path), path)
      case Some(error) => Err(error)
      case None => if HasDrive(path) then Err(DrivePrefix(path)) else Ok(path)
  }

  /** A directory or module name. */
  ghost predicate IsName(name: string) {
    && name != "" && name != "." && name != ".."
    && forall c :: c in name ==> c != '/' && c != '\\' && !IsControl(c)
  }

  /** A canonical path is a non-empty list of names joined by separators, without a drive prefix. */
  ghost predicate Canonical(path: string) {
    && !HasDrive(path)
    && exists names: seq<string> :: names != [] && (forall n :: n in names ==> IsName(n)) && path == Join(names)
  }

  lemma {:induction false} SegmentErrorExactly(segments: seq<string>, path: string)
    ensures SegmentError(segments, path).None? <==> forall n :: n in segments ==> n != "" && n != "." && n != ".."
  {
    if segments != [] {
      SegmentErrorExactly(segments[1..], path);
      assert segments[0] in segments && forall n :: n in segments[1..] ==> n in segments;
      assert forall n :: n in segments ==> n == segments[0] || n in segments[1..];
    }
  }

  lemma {:induction false} JoinChars(pieces: seq<string>)
    ensures forall c :: c in Join(pieces) ==> c == '/' || exists n :: n in pieces && c in n
    ensures forall n, c :: n in pieces && c in n ==> c in Join(pieces)
  {
    if |pieces| > 1 {
      JoinChars(pieces[1..]);
      assert pieces == [pieces[0]] + pieces[1..];
    }
  }

  lemma {:induction false} JoinOfNamesEnds(names: seq<string>)
    requires names != []
    requires forall n :: n in names ==> n != "" && '/' !in n
    ensures Join(names) != "" && Join(names)[0] != '/' && Join(names)[|Join(names)| - 1] != '/'
  {
    assert names[0] in names;
    if |names| > 1 {
      assert forall n :: n in names[1..] ==> n in names;
      JoinOfNamesEnds(names[1..]);
    }
  }

  /** Validation accepts exactly the canonical paths, and changes nothing about them. */
  lemma NewPathExactly(path: string)
    ensures NewPath(path).Ok? <==> Canonical(path)
    ensures NewPath(path).Ok? ==> NewPath(path).value == path
    ensures Canonical(path) ==> forall n :: n in Split(path) ==> IsName(n)
  {
    SegmentErrorExactly(Split(path), path);
    JoinOfSplit(path);
    JoinChars(Split(path));
    if Canonical(path) {
      var names: seq<string> :|
        names != [] && (forall n :: n in names ==> IsName(n)) && path == Join(names);
      SplitOfJoin(names);
      JoinOfNamesEnds(names);
    }
  }

  /** `ModulePath::parent`: everything before the last separator. */
  function Parent(path: string): Option<string> {
    if '/' !in path then None
    else if path[|path| - 1] == '/' then Some(path[..|path| - 1])
    else Parent(path[..|path| - 1])
  }

  /** The parent's segments are the path's segments without the last one. */
  lemma {:induction false} ParentSegments(path: string)
    ensures Parent(path).None? <==> |Split(path)| == 1
    ensures Parent(path).Some? ==> Split(Parent(path).value) == Split(path)[..|Split(path)| - 1]
  {
    if '/' !in path {
      SplitWhole(path);
    } else {
      var n := |path| - 1;
      if path[n] == '/' {
        assert path == path[..n] + "/" + "";
        SplitSlash(path[..n], "");
        assert |Split("")| == 1;
      } else {
        ParentSegments(path[..n]);
        SplitSnoc(path[..n], path[n]);
        assert path == path[..n] + [path[n]];
        assert '/' in path[..n];
      }
    }
  }

  /** Appending a character that is no separator extends the last piece. */
  lemma {:induction false} SplitSnoc(path: string, c: char)
    requires c != '/'
    ensures var pieces := Split(path);
            Split(path + [c]) == pieces[..|pieces| - 1] + [pieces[|pieces| - 1] + [c]]
  {
    if path == "" {
      SplitWhole([c]);
      assert path + [c] == [c] && "" + [c] == [c];
    } else {
      assert (path + [c])[1..] == path[1..] + [c];
      SplitSnoc(path[1..], c);
      var rest := Split(path[1..]);
      if path[0] != '/' && |rest| == 1 {
        assert [path[0]] + (rest[0] + [c]) == [path[0]] + rest[0] + [c];
      }
    }
  }
}
