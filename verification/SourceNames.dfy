/** The declared paths of retained sources are safe, and distinct attempts
    declare distinct ones. */
module SourceNames {
  import opened Text
  import opened Interleave
  import opened Fields

  function SourceRelativePath(name: string): string {
    "sources/" + name
  }

  /** Letters, digits, dots, underscores and dashes. */
  predicate WordChars(s: string) {
    forall i | 0 <= i < |s| :: AlphaNumeric(s[i]) || s[i] in "._-"
  }

  lemma {:induction false} WordBytes(s: string)
    requires WordChars(s)
    ensures Utf8Bytes(s) == |s|
  {
    if s != "" {
      assert AlphaNumeric(s[0]) || s[0] in "._-";
      WordBytes(s[1..]);
    }
  }

  lemma {:induction false} WordPieces(s: string)
    requires WordChars(s)
    ensures Pieces(s) == [s] && SlashPieces(s) == [s]
  {
    if s != "" {
      assert AlphaNumeric(s[0]) || s[0] in "._-";
      WordPieces(s[1..]);
      assert [s[0]] + s[1..] == s;
    }
  }

  lemma {:induction false} WordBaseName(p: string, s: string)
    requires WordChars(s) && p != "" && IsSeparator(p[|p| - 1])
    ensures BaseName(p + s) == s
  {
    var all := p + s;
    if s == "" {
      assert all == p;
    } else {
      var last := s[|s| - 1];
      assert AlphaNumeric(last) || last in "._-";
      WordBaseName(p, s[..|s| - 1]);
      assert all[..|all| - 1] == p + s[..|s| - 1];
      assert s == s[..|s| - 1] + [last];
    }
  }

  /** A word before a slash is the first piece. */
  lemma {:induction false} SplitAtSlash(w: string, rest: string)
    requires WordChars(w)
    ensures Pieces(w + "/" + rest) == [w] + Pieces(rest)
    ensures SlashPieces(w + "/" + rest) == [w] + SlashPieces(rest)
  {
    var p := w + "/" + rest;
    if w == "" {
      assert p[1..] == rest;
    } else {
      assert AlphaNumeric(w[0]) || w[0] in "._-";
      SplitAtSlash(w[1..], rest);
      assert p[1..] == w[1..] + "/" + rest;
      assert [w[0]] + w[1..] == w;
    }
  }

  lemma RawNameWord(attempt: nat, arm: ArmName)
    requires attempt < 100
    ensures var name := RawSourceName(attempt, arm); WordChars(name) && |name| <= 22 && SafeWord(name, "._-", 128)
    ensures RawSourceName(attempt, arm)[0] == 'r' && '.' in RawSourceName(attempt, arm)
  {
    TwoDigitsLength(attempt);
    var d, a := TwoDigits(attempt), ArmText(arm);
    assert WordChars("raw-") && WordChars(d) && WordChars("-") && WordChars(".jsonl");
    assert WordChars(a);
    var name := RawSourceName(attempt, arm);
    assert name == "raw-" + d + "-" + a + ".jsonl";
    assert name[|name| - 6] == '.';
  }

  /** The path declared for a retained source passes every check, and resolves
      to the source's place below the record's directory. */
  lemma SourcePathOk(attempt: nat, arm: ArmName)
    requires attempt < 100
    ensures var name := RawSourceName(attempt, arm);
      PathOk(SourceRelativePath(name)) && Resolve(SourceRelativePath(name)) == ["sources", name]
  {
    hide RawSourceName;
    RawNameWord(attempt, arm);
    var name := RawSourceName(attempt, arm);
    var p := SourceRelativePath(name);
    assert p == "sources" + "/" + name;
    assert WordChars("sources");
    SplitAtSlash("sources", name);
    WordPieces(name);
    WordBaseName("sources/", name);
    Utf8Concat("sources/", name);
    WordBytes("sources");
    Utf8Concat("sources", "/");
    WordBytes(name);
    assert Utf8Bytes("/") == 1 by { assert "/"[1..] == ""; }
    assert "sources/" == "sources" + "/";
    WordSafe(p, name);
    NamedPair(name);
  }

  lemma {:induction false} WordSafe(p: string, name: string)
    requires p == "sources/" + name && WordChars(name) && name != ".." && Pieces(p) == ["sources", name]
    ensures SafeRelative(p)
  {
    assert p[0] == 's' && p[1] == 'o';
    forall i | 0 <= i < |p| ensures p[i] != 0 as char {
      if i < 8 {
        assert p[i] == "sources/"[i];
      } else {
        assert p[i] == name[i - 8];
      }
    }
  }

  lemma NamedPair(name: string)
    requires name != "" && name != "."
    ensures Named(["sources", name]) == ["sources", name]
  {
    assert [name][1..] == [];
    assert Named([name]) == [name];
    assert ["sources", name][1..] == [name];
    assert "sources"[0] == 's';
  }

  /** Two attempts never declare the same place. */
  lemma SourcePathsDistinct(a: nat, x: ArmName, b: nat, y: ArmName)
    requires a < 100 && b < 100 && a != b
    ensures Resolve(SourceRelativePath(RawSourceName(a, x))) != Resolve(SourceRelativePath(RawSourceName(b, y)))
  {
    hide RawSourceName;
    SourcePathOk(a, x);
    SourcePathOk(b, y);
    NamesDistinct(a, x, b, y);
    assert ["sources", RawSourceName(a, x)][1] != ["sources", RawSourceName(b, y)][1];
  }
}
