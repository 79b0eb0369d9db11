/** What trimming and splitting into lines do to a text, said without how they do it. */
module JsonText {
  import opened Prelude
  import opened Json

  /** The falsy values: what is absent, null, false, zero, and the empty text. */
  lemma FalsyIff(j: Option<Json>)
    ensures !Truthy(j) <==> j in {None, Some(JNull), Some(JBool(false)), Some(JNum(0.0)), Some(JStr(""))}
  {
  }

  ghost predicate AllSpace(s: string) {
    forall i | 0 <= i < |s| :: IsSpace(s[i])
  }

  /** The middle of the text, with white space on both sides, and none at its own ends. */
  ghost predicate IsMiddle(s: string, i: nat, j: nat) {
    && i <= j <= |s| && AllSpace(s[..i]) && AllSpace(s[j..])
    && (i < j ==> !IsSpace(s[i]) && !IsSpace(s[j - 1]))
  }

  lemma {:induction false} TrimStartIs(s: string) returns (i: nat)
    ensures i <= |s| && AllSpace(s[..i]) && TrimStart(s) == s[i..] && (i < |s| ==> !IsSpace(s[i]))
  {
    if s != "" && IsSpace(s[0]) {
      var k := TrimStartIs(s[1..]);
      i := k + 1;
      assert forall n | 0 < n < i :: s[..i][n] == s[1..][..k][n - 1];
    } else {
      i := 0;
    }
  }

  lemma {:induction false} TrimEndIs(s: string) returns (j: nat)
    ensures j <= |s| && AllSpace(s[j..]) && TrimEnd(s) == s[..j] && (j > 0 ==> !IsSpace(s[j - 1]))
  {
    if s != "" && IsSpace(s[|s| - 1]) {
      var before := s[..|s| - 1];
      j := TrimEndIs(before);
      assert before[..j] == s[..j];
      assert s[j..] == before[j..] + [s[|s| - 1]];
    } else {
      j := |s|;
    }
  }

  /** Trimming takes away the white space at both ends, all of it and nothing else. */
  lemma TrimIsMiddle(s: string) returns (i: nat, j: nat)
    ensures IsMiddle(s, i, j) && Trim(s) == s[i..j]
  {
    i := TrimStartIs(s);
    var k := TrimEndIs(s[i..]);
    j := i + k;
    assert s[i..][..k] == s[i..j] && s[i..][k..] == s[j..];
  }

  /** A text is blank exactly when it is nothing but white space. */
  lemma BlankIff(s: string)
    ensures Blank(s) <==> AllSpace(s)
  {
    var i, j := TrimIsMiddle(s);
    if i == j {
      assert s == s[..i] + s[j..];
    }
  }

  /** A first character that is no white space stays the first. */
  lemma {:induction false} TrimEndKeepsFirst(s: string)
    requires s != "" && !IsSpace(s[0])
    ensures TrimEnd(s) != "" && TrimEnd(s)[0] == s[0]
  {
    if IsSpace(s[|s| - 1]) {
      TrimEndKeepsFirst(s[..|s| - 1]);
    }
  }

  function JoinedLines(lines: seq<string>): string
    requires lines != []
  {
    if |lines| == 1 then lines[0] else lines[0] + "\n" + JoinedLines(lines[1..])
  }

  ghost predicate IsLine(s: string) {
    forall i | 0 <= i < |s| :: s[i] != '\n'
  }

  /** The lines of a text are the pieces between its newlines: they hold none, and joined they are the text. */
  lemma {:induction false} LinesAre(s: string, i: nat)
    requires i <= |s| && IsLine(s[..i])
    ensures LinesFrom(s, i) != [] && JoinedLines(LinesFrom(s, i)) == s
    ensures forall line | line in LinesFrom(s, i) :: IsLine(line)
    decreases |s|, |s| - i
  {
    if i == |s| {
      assert s[..i] == s;
    } else if s[i] == '\n' {
      LinesAre(s[i + 1..], 0);
      assert ([s[..i]] + LinesFrom(s[i + 1..], 0))[1..] == LinesFrom(s[i + 1..], 0);
      assert s == s[..i] + "\n" + s[i + 1..];
    } else {
      assert s[..i + 1] == s[..i] + [s[i]];
      LinesAre(s, i + 1);
    }
  }

  /** Any lines are found again in the text that they make up. */
  lemma {:induction false} LinesOfJoined(lines: seq<string>)
    requires lines != [] && forall line | line in lines :: IsLine(line)
    ensures Lines(JoinedLines(lines)) == lines
  {
    var s := JoinedLines(lines);
    assert lines[0] in lines;
    if |lines| == 1 {
      WholeLine(s, 0);
      assert lines == [lines[0]];
    } else {
      LinesOfJoined(lines[1..]);
      UpToNewline(lines[0], JoinedLines(lines[1..]), 0);
      assert lines == [lines[0]] + lines[1..];
    }
  }

  lemma {:induction false} WholeLine(s: string, i: nat)
    requires i <= |s| && IsLine(s)
    ensures LinesFrom(s, i) == [s]
    decreases |s| - i
  {
    if i < |s| {
      WholeLine(s, i + 1);
    }
  }

  lemma {:induction false} UpToNewline(line: string, rest: string, i: nat)
    requires i <= |line| && IsLine(line)
    ensures LinesFrom(line + "\n" + rest, i) == [line] + Lines(rest)
    decreases |line| - i
  {
    var s := line + "\n" + rest;
    if i < |line| {
      assert s[i] == line[i];
      UpToNewline(line, rest, i + 1);
    } else {
      assert s[..i] == line && s[i + 1..] == rest;
    }
  }
}
