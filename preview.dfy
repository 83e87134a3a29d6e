/** The preview printed for each retrieved chunk: the text before
    the first ". ", an ellipsis when the chunk has any full stop, and the
    surrounding whitespace stripped. */
module Preview {
  import opened Wrappers
  import opened Text

  /** The chunk's text up to its first ". " (all of it when there is none),
      followed by an ellipsis when the chunk contains a full stop anywhere. */
  function FirstSentence(chunk: string): string {
    Split(chunk, ". ")[0] + (if '.' in chunk then "..." else "")
  }

  /** The preview shown for a chunk: its first sentence with the surrounding
      whitespace stripped. */
  function PreviewText(chunk: string): string {
    Strip(FirstSentence(chunk))
  }

  /** The first piece of a split is the text before the first separator, or
      the whole string when there is none. */
  lemma SplitHead(s: string, sep: string)
    requires sep != []
    ensures Find(s, sep).None? ==> Split(s, sep)[0] == s
    ensures Find(s, sep).Some? ==> Split(s, sep)[0] == s[..Find(s, sep).value]
  {
    var f := Find(s, sep);
    if f.Some? {
      assert Split(s, sep) == [s[..f.value]] + Split(s[f.value + |sep|..], sep);
    }
  }

  /** The first piece of a split never contains the separator. */
  lemma SplitHeadHasNoSeparator(s: string, sep: string)
    requires sep != []
    ensures forall j: nat :: !OccursAt(Split(s, sep)[0], sep, j)
  {
    SplitHead(s, sep);
    var f := Find(s, sep);
    if f.Some? {
      var i := f.value;
      forall j: nat ensures !OccursAt(s[..i], sep, j) {
        if j + |sep| <= i {
          assert s[..i][j..j + |sep|] == s[j..j + |sep|];
          assert !OccursAt(s, sep, j);
        }
      }
    }
  }

  /** An occurrence of ". " is an occurrence of '.'. */
  lemma SeparatorHasDot(s: string)
    requires Find(s, ". ").Some?
    ensures '.' in s
  {
    var i := Find(s, ". ").value;
    assert s[i..i + 2][0] == s[i];
  }

  /** A string without '.' has no ". " in it. */
  lemma NoDotNoSeparator(s: string)
    requires '.' !in s
    ensures Find(s, ". ").None?
  {
    if Find(s, ". ").Some? {
      SeparatorHasDot(s);
    }
  }

  /** The preview is the stripped text before the first ". " followed by
      "...", or, with no ". " in the chunk, the stripped chunk, followed by
      "..." exactly when the chunk still contains a '.'. */
  lemma PreviewIsFirstSentence(chunk: string)
    ensures Find(chunk, ". ").Some? ==>
      PreviewText(chunk) == Strip(chunk[..Find(chunk, ". ").value] + "...")
    ensures Find(chunk, ". ").None? ==>
      PreviewText(chunk) == Strip(chunk + (if '.' in chunk then "..." else ""))
  {
    SplitHead(chunk, ". ");
    if Find(chunk, ". ").Some? {
      SeparatorHasDot(chunk);
    }
  }

  /** Stripping cannot remove a suffix that ends in a non-space character. */
  lemma StripKeepsDots(x: string)
    ensures EndsWith(Strip(x + "..."), "...")
  {
    var s := x + "...";
    var r := Strip(s);
    var i := StripSlice(s);
    assert !IsSpace(s[|s| - 1]) && !IsSpace(s[|s| - 3]);
    assert i + |r| == |s|;
    assert i <= |s| - 3;
    assert r == s[i..];
    assert r[|r| - 3..] == s[|s| - 3..] == "...";
  }

  /** Characters of a stripped string come from the string. */
  lemma StripChars(s: string, c: char)
    requires c !in s
    ensures c !in Strip(s)
  {
    var r := Strip(s);
    var i := StripSlice(s);
    forall k | 0 <= k < |r| ensures r[k] != c {
      assert r[k] == s[i + k];
    }
  }

  /** The preview ends in "..." exactly when the chunk contains a '.'. */
  lemma PreviewEllipsisIff(chunk: string)
    ensures '.' in chunk <==> EndsWith(PreviewText(chunk), "...")
  {
    if '.' in chunk {
      StripKeepsDots(Split(chunk, ". ")[0]);
    } else {
      NoDotNoSeparator(chunk);
      SplitHead(chunk, ". ");
      StripChars(chunk, '.');
      var r := PreviewText(chunk);
      if |r| >= 3 {
        assert r[|r| - 1] != '.';
        assert r[|r| - 3..][2] == r[|r| - 1];
      }
    }
  }

  /** Without a full stop the preview is just the stripped chunk. */
  lemma PreviewWithoutDot(chunk: string)
    requires '.' !in chunk
    ensures PreviewText(chunk) == Strip(chunk)
  {
    NoDotNoSeparator(chunk);
    SplitHead(chunk, ". ");
    assert FirstSentence(chunk) == chunk + "" == chunk;
  }
}
