/** `BigRigsLib.MapDescriptor`: the DSC map descriptor, a list of file references
    held one per line. Loading appends the lines of a file to the list; saving writes
    the list back one line per entry. File contents come in and go out as text; the
    line splitting is `File.ReadAllLines` and the writing is `StreamWriter.WriteLine`,
    both as `Text` defines them. */
module Dsc {
  import opened Text

  /** The text a `StreamWriter` holds after one more `WriteLine`. */
  lemma {:induction false} WriteAllLinesSnoc(lines: seq<string>, line: string, newLine: string)
    ensures WriteAllLines(lines + [line], newLine) == WriteAllLines(lines, newLine) + line + newLine
    decreases |lines|
  {
    if |lines| == 0 {
      assert lines + [line] == [line];
      assert WriteAllLines([line][1..], newLine) == "";
    } else {
      assert (lines + [line])[1..] == lines[1..] + [line];
      WriteAllLinesSnoc(lines[1..], line, newLine);
    }
  }

  class MapDescriptor {
    /** `Files`: the file references, in file order. */
    var files: seq<string>

    /** `new MapDescriptor()`: an empty list. */
    constructor ()
      ensures files == []
    {
      files := [];
    }

    /** `new MapDescriptor(file)`: the list read from the file whose contents are `text`. */
    constructor FromText(text: string)
      ensures files == ReadAllLines(text)
    {
      files := [];
      new;
      Load(text);
    }

    /** `Load`: every line of the file is appended to `files`, in order; nothing that
        was there before is dropped or changed. */
    method Load(text: string)
      modifies this
      ensures files == old(files) + ReadAllLines(text)
      ensures |files| == |old(files)| + |ReadAllLines(text)|
    {
      var dsc := ReadAllLines(text);
      var i := 0;
      while i < |dsc|
        invariant 0 <= i <= |dsc|
        invariant files == old(files) + dsc[..i]
      {
        files := files + [dsc[i]];
        i := i + 1;
      }
      assert dsc[..|dsc|] == dsc;
    }

    /** `Save`: the text written holds one line per entry of `files`, in order, each
        ended by `newLine`; the list itself is left as it was. */
    method Save(newLine: string) returns (text: string)
      ensures text == WriteAllLines(files, newLine)
    {
      text := "";
      var i := 0;
      while i < |files|
        invariant 0 <= i <= |files|
        invariant text == WriteAllLines(files[..i], newLine)
      {
        WriteAllLinesSnoc(files[..i], files[i], newLine);
        assert files[..i + 1] == files[..i] + [files[i]];
        text := text + files[i] + newLine;
        i := i + 1;
      }
      assert files[..|files|] == files;
    }
  }

  /** Loading what `Save` wrote into a descriptor that holds `before` gives `before`
      followed by the saved list, with either newline convention, as long as no entry
      holds a line break of its own. */
  lemma SaveThenLoad(before: seq<string>, files: seq<string>, newLine: string)
    requires newLine == "\n" || newLine == "\r\n"
    requires forall i :: 0 <= i < |files| ==> Free(files[i], {'\n', '\r'})
    ensures before + ReadAllLines(WriteAllLines(files, newLine)) == before + files
  {
    ReadWriteRoundTrip(files, newLine);
  }

  /** An entry holding a line break does not survive the round trip: it comes back as
      two entries. */
  lemma SaveThenLoadSplitsBreaks()
    ensures ReadAllLines(WriteAllLines(["a\nb"], "\n")) == ["a", "b"]
  {
    var t := WriteAllLines(["a\nb"], "\n");
    assert t == "a\nb\n";
    assert LineEnd(t) == 1;
    assert t[2..] == "b\n";
    assert LineEnd(t[2..]) == 1;
    var u := t[2..];
    assert u[2..] == "";
    assert ReadAllLines(u) == [u[..1]] + ReadAllLines(u[2..]);
    assert u[..1] == "b";
    assert ReadAllLines(t) == [t[..1]] + ReadAllLines(u);
    assert t[..1] == "a";
  }
}
