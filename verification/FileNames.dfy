/** A file's full name and its three parts: the path with its last slash, the name, and the extension with its
    dot.  The code copies the parts without looking at the room there is for them. */
module FileNames {
  import opened Bytes

  // From a generated header; each with its terminator.
  const FILENAMESIZE: nat := 120
  const PATHSIZE: nat := 84
  const NAMESIZE: nat := 32
  const EXTSIZE: nat := 5

  const SLASH: byte := 47
  const DOT: byte := 46

  // Where the part behind the last slash begins.
  function PathEnd<T(==)>(s: seq<T>, slash: T): (i: nat)
    ensures i <= |s| && (i > 0 ==> s[i - 1] == slash) && slash !in s[i..]
  {
    if s == [] then 0 else if s[|s| - 1] == slash then |s| else PathEnd(s[..|s| - 1], slash)
  }

  // Where the first dot stands, or the end.
  function FirstDot<T(==)>(s: seq<T>, dot: T): (i: nat)
    ensures i <= |s| && dot !in s[..i] && (i < |s| ==> s[i] == dot)
  {
    if s == [] || s[0] == dot then 0 else 1 + FirstDot(s[1..], dot)
  }

  function PathPart<T(==)>(s: seq<T>, slash: T): seq<T> { s[..PathEnd(s, slash)] }

  function NamePart<T(==)>(s: seq<T>, slash: T, dot: T): seq<T> {
    var file := s[PathEnd(s, slash)..];
    file[..FirstDot(file, dot)]
  }

  function ExtPart<T(==)>(s: seq<T>, slash: T, dot: T): seq<T> {
    var file := s[PathEnd(s, slash)..];
    file[FirstDot(file, dot)..]
  }

  /** A path that is empty or ends with a slash, a name with neither slash nor dot, and an extension without a
      slash that is empty or begins with a dot. */
  predicate Parts<T(==)>(path: seq<T>, name: seq<T>, ext: seq<T>, slash: T, dot: T) {
    && (path == [] || path[|path| - 1] == slash)
    && slash !in name && slash !in ext && dot !in name
    && (ext == [] || ext[0] == dot)
  }

  lemma {:induction false} PathEndIs<T>(s: seq<T>, slash: T, i: nat)
    requires i <= |s| && (i > 0 ==> s[i - 1] == slash) && slash !in s[i..]
    ensures PathEnd(s, slash) == i
  {
    if i < |s| {
      assert s[|s| - 1] == s[i..][|s| - 1 - i];
      assert s[..|s| - 1][i..] == s[i..][..|s| - 1 - i];
      PathEndIs(s[..|s| - 1], slash, i);
    }
  }

  lemma {:induction false} FirstDotIs<T>(s: seq<T>, dot: T, i: nat)
    requires i <= |s| && dot !in s[..i] && (i < |s| ==> s[i] == dot)
    ensures FirstDot(s, dot) == i
  {
    if i > 0 {
      assert s[0] == s[..i][0] && s[1..][..i - 1] == s[..i][1..];
      FirstDotIs(s[1..], dot, i - 1);
    }
  }

  /** Every string is made of such parts in one way only, and these are the parts found. */
  lemma PartsUnique<T>(path: seq<T>, name: seq<T>, ext: seq<T>, slash: T, dot: T)
    requires Parts(path, name, ext, slash, dot)
    ensures var s := path + name + ext;
            PathPart(s, slash) == path && NamePart(s, slash, dot) == name && ExtPart(s, slash, dot) == ext
  {
    var s, file := path + name + ext, name + ext;
    assert s[..|path|] == path && s[|path|..] == file && file[..|name|] == name && file[|name|..] == ext;
    PathEndIs(s, slash, |path|);
    FirstDotIs(file, dot, |name|);
  }

  // Where the parts are cut.
  lemma CutAt<T>(s: seq<T>, slash: T, dot: T, first: nat, i: nat)
    requires first <= i <= |s| && (first > 0 ==> s[first - 1] == slash) && slash !in s[first..]
    requires dot !in s[first..i] && (i < |s| ==> s[i] == dot)
    ensures PathPart(s, slash) == s[..first] && NamePart(s, slash, dot) == s[first..i] && ExtPart(s, slash, dot) == s[i..]
  {
    hide PathEnd, FirstDot;
    PathEndIs(s, slash, first);
    var file := s[first..];
    assert file[..i - first] == s[first..i] && file[i - first..] == s[i..];
    FirstDotIs(file, dot, i - first);
  }

  lemma PartsFound<T>(s: seq<T>, slash: T, dot: T)
    ensures Parts(PathPart(s, slash), NamePart(s, slash, dot), ExtPart(s, slash, dot), slash, dot)
    ensures s == PathPart(s, slash) + NamePart(s, slash, dot) + ExtPart(s, slash, dot)
  {
    hide PathEnd, FirstDot;
    var file := s[PathEnd(s, slash)..];
    NotInPart(file, slash, FirstDot(file, dot));
    assert s == PathPart(s, slash) + file;
  }

  lemma NotInPart<T>(s: seq<T>, x: T, i: nat)
    requires x !in s && i <= |s|
    ensures x !in s[..i] && x !in s[i..] && s == s[..i] + s[i..]
  {
  }

  /** A destination: none, or so many bytes. */
  datatype Room = Null | Buffer(size: nat)

  predicate Holds<T>(room: Room, part: seq<T>) { room.Buffer? ==> |part| < room.size }

  // FindName; unless `inside`, it writes behind one of its destinations.
  method FindName<T(==)>(source: seq<T>, slash: T, dot: T, pathRoom: Room, nameRoom: Room, extRoom: Room)
    returns (inside: bool, path: seq<T>, name: seq<T>, ext: seq<T>)
    ensures inside <==> && Holds(pathRoom, PathPart(source, slash)) && Holds(nameRoom, NamePart(source, slash, dot))
                        && Holds(extRoom, ExtPart(source, slash, dot))
    ensures path == PathPart(source, slash) && name == NamePart(source, slash, dot) && ext == ExtPart(source, slash, dot)
  {
    hide PathPart, NamePart, ExtPart;
    var i := |source|;
    while i > 0 && (i == |source| || source[i] != slash)
      invariant 0 <= i <= |source| && (i < |source| ==> slash !in source[i + 1..])
    {
      i := i - 1;
    }
    path := [];
    if i < |source| && source[i] == slash {
      i := i + 1;
      path := source[..i];
    }
    var first := i;
    while i < |source| && source[i] != dot
      invariant first <= i <= |source| && dot !in source[first..i]
    {
      i := i + 1;
    }
    name, ext := source[first..i], source[i..];
    CutAt(source, slash, dot, first, i);
    inside := (pathRoom.Null? || |path| < pathRoom.size) && (nameRoom.Null? || |name| < nameRoom.size)
           && (extRoom.Null? || |ext| < extRoom.size);
  }

  /** The lengths that cMemoryCheckFilename lets pass. */
  predicate NameFits<T(==)>(s: seq<T>, slash: T, dot: T) {
    && |s| < FILENAMESIZE
    && |PathPart(s, slash)| < PATHSIZE && |NamePart(s, slash, dot)| < NAMESIZE && |ExtPart(s, slash, dot)| < EXTSIZE
  }

  // cMemoryCheckFilename; `valid` is what ValidateString says of the characters.
  method CheckFilename<T(==)>(filename: seq<T>, slash: T, dot: T, valid: bool) returns (inside: bool, ok: bool)
    ensures inside && (ok <==> NameFits(filename, slash, dot) && valid)
  {
    inside, ok := true, false;
    if |filename| < FILENAMESIZE {
      PartsFound(filename, slash, dot);
      var path, name, ext;
      inside, path, name, ext :=
        FindName(filename, slash, dot, Buffer(FILENAMESIZE), Buffer(FILENAMESIZE), Buffer(FILENAMESIZE));
      if |path| < PATHSIZE && |name| < NAMESIZE && |ext| < EXTSIZE {
        ok := valid;
      }
    }
  }

  /** No name that passes is longer than its three parts may be together. */
  lemma LongestName<T>(s: seq<T>, slash: T, dot: T)
    requires NameFits(s, slash, dot)
    ensures |s| <= 118
  {
    PartsFound(s, slash, dot);
  }
}
