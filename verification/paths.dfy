/** Output file names: Python's `str.split` on one separator character, and its inverse `join`. */
module FilePaths {
  import opened Errors

  /** The path separator the script splits `file_name` on. */
  const Slash: char := '/'

  /**
   * `s.split(sep)`: the maximal pieces of `s` between separators; an empty
   * string and a separator at either end give empty pieces.
   */
  function Split(s: string, sep: char): (parts: seq<string>)
    ensures |parts| >= 1
    decreases |s|
  {
    if s == [] then [""]
    else
      var rest := Split(s[1..], sep);
      if s[0] == sep then [""] + rest else [[s[0]] + rest[0]] + rest[1..]
  }

  /** `sep.join(parts)`. */
  function Join(parts: seq<string>, sep: char): string
    requires |parts| >= 1
    decreases |parts|
  {
    if |parts| == 1 then parts[0] else parts[0] + [sep] + Join(parts[1..], sep)
  }

  /** Splitting loses nothing: joining the pieces gives the string back. */
  lemma {:induction false} JoinSplit(s: string, sep: char)
    ensures Join(Split(s, sep), sep) == s
    decreases |s|
  {
    if s != [] {
      var rest := Split(s[1..], sep);
      JoinSplit(s[1..], sep);
      if s[0] == sep {
        assert Split(s, sep)[1..] == rest;
      } else if |rest| == 1 {
        assert Split(s, sep) == [[s[0]] + rest[0]];
      } else {
        assert Split(s, sep)[1..] == rest[1..];
        assert Join(rest, sep) == rest[0] + [sep] + Join(rest[1..], sep);
      }
    }
  }

  /** No piece contains the separator, and there is more than one piece exactly when `s` contains it. */
  lemma {:induction false} SplitPieces(s: string, sep: char)
    ensures forall i :: 0 <= i < |Split(s, sep)| ==> sep !in Split(s, sep)[i]
    ensures |Split(s, sep)| >= 2 <==> sep in s
    decreases |s|
  {
    if s != [] {
      SplitPieces(s[1..], sep);
      var rest := Split(s[1..], sep);
      var parts := Split(s, sep);
      if s[0] != sep {
        forall i | 0 <= i < |parts|
          ensures sep !in parts[i]
        {
          if i > 0 {
            assert parts[i] == rest[i];
          }
        }
        assert sep in s <==> sep in s[1..] by {
          assert s == [s[0]] + s[1..];
        }
      }
    }
  }

  /** A first piece without separators is split off whole. */
  lemma {:induction false} SplitAfterFirst(first: string, rest: string, sep: char)
    requires sep !in first
    ensures Split(first + [sep] + rest, sep) == [first] + Split(rest, sep)
    decreases |first|
  {
    if first != [] {
      var s := first + [sep] + rest;
      assert s[0] == first[0] && s[1..] == first[1..] + [sep] + rest;
      SplitAfterFirst(first[1..], rest, sep);
      assert [first[0]] + first[1..] == first;
    } else {
      assert (first + [sep] + rest)[1..] == rest;
    }
  }

  /** The first piece of `piece + tail` is `piece` when `tail` is empty or starts a new piece. */
  lemma {:induction false} SplitFirstPiece(piece: string, tail: string, sep: char)
    requires sep !in piece
    requires tail == [] || tail[0] == sep
    ensures Split(piece + tail, sep)[0] == piece
    decreases |piece|
  {
    if piece == [] {
      assert piece + tail == tail;
    } else {
      assert (piece + tail)[1..] == piece[1..] + tail;
      SplitFirstPiece(piece[1..], tail, sep);
    }
  }

  /**
   * `file_name.split("/")[1]`: the second "/"-separated piece, or an IndexError
   * when the name has no "/".
   */
  function SecondSegment(fileName: string): (r: Result<string>)
    ensures r.Err? <==> Slash !in fileName
    ensures r.Err? ==> r.error == MissingPathSegment(fileName)
    ensures r.Ok? ==> Slash !in r.value
  {
    SplitPieces(fileName, Slash);
    var parts := Split(fileName, Slash);
    if |parts| < 2 then Err(MissingPathSegment(fileName)) else Ok(parts[1])
  }

  /**
   * The piece taken is the one right after the first "/", up to the next "/"
   * or the end: for "dir/name" it is "name", for "a/b/c.png" it is "b".
   */
  lemma SecondSegmentOf(first: string, second: string, tail: string)
    requires Slash !in first && Slash !in second
    requires tail == [] || tail[0] == Slash
    ensures SecondSegment(first + [Slash] + second + tail) == Ok(second)
  {
    assert first + [Slash] + second + tail == first + [Slash] + (second + tail);
    SplitAfterFirst(first, second + tail, Slash);
    SplitFirstPiece(second, tail, Slash);
  }

  /** A two-piece path, a deeper path, and a bare file name. */
  lemma SecondSegmentExamples()
    ensures SecondSegment("imgs/a.png") == Ok("a.png")
    ensures SecondSegment("a/b/c.png") == Ok("b")
    ensures SecondSegment("a.png").Err?
  {
    SecondSegmentOf("imgs", "a.png", "");
    assert "imgs/a.png" == "imgs" + [Slash] + "a.png" + "";
    SecondSegmentOf("a", "b", "/c.png");
    assert "a/b/c.png" == "a" + [Slash] + "b" + "/c.png";
  }

  /** Where an image's copy is written: `f"{os.getcwd()}/{dest_dir}/{stripped_file_name}"`. */
  function OutputPath(cwd: string, destDir: string, name: string): (path: string)
    ensures |path| == |cwd| + |destDir| + |name| + 2
    ensures path[|path| - |name|..] == name
  {
    cwd + [Slash] + destDir + [Slash] + name
  }
}
