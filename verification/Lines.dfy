/** Text made of lines, each closed by CRLF, and where searches in it end up. */
module Lines {
  import opened Wrappers
  import opened Text

  predicate IsLineCharacter(c: char) {
    c != '\r' && c != '\n'
  }

  predicate IsLine(line: string) {
    line != "" && forall i :: 0 <= i < |line| ==> IsLineCharacter(line[i])
  }

  function LinesText(lines: seq<string>): string {
    if lines == [] then "" else lines[0] + (CRLF + LinesText(lines[1..]))
  }

  lemma LinesTextOfConcat(a: seq<string>, b: seq<string>)
    ensures LinesText(a + b) == LinesText(a) + LinesText(b)
  {
    if a == [] {
      assert a + b == b;
    } else {
      LinesTextOfConcat(a[1..], b);
      assert (a + b)[1..] == a[1..] + b;
      Regroup(a[0], CRLF, LinesText(a[1..]), LinesText(b));
    }
  }

  lemma Regroup(a: string, b: string, c: string, d: string)
    ensures a + (b + (c + d)) == (a + (b + c)) + d
  {
  }

  lemma AtCrlf(text: string, k: nat)
    ensures At(text, CRLF, k) <==> k + 2 <= |text| && text[k] == '\r' && text[k + 1] == '\n'
  {
    if k + 2 <= |text| && text[k] == '\r' && text[k + 1] == '\n' {
      forall i | 0 <= i < 2 ensures text[k + i] == CRLF[i] {
      }
    } else if k + 2 <= |text| {
      assert text[k + 0] != CRLF[0] || text[k + 1] != CRLF[1];
    }
  }

  lemma AtBlankLine(text: string, k: nat)
    ensures At(text, CRLFCRLF, k) <==> At(text, CRLF, k) && At(text, CRLF, k + 2)
  {
    AtCrlf(text, k);
    AtCrlf(text, k + 2);
    if At(text, CRLF, k) && At(text, CRLF, k + 2) {
      forall i | 0 <= i < 4 ensures text[k + i] == CRLFCRLF[i] {
      }
    } else if k + 4 <= |text| {
      assert text[k + 0] != CRLFCRLF[0] || text[k + 1] != CRLFCRLF[1] ||
             text[k + 2] != CRLFCRLF[2] || text[k + 3] != CRLFCRLF[3];
    }
  }

  /** The line end after a line is the first one found from the line's start. */
  lemma LineEnd(text: string, begin: nat, end: nat)
    requires begin <= end && At(text, CRLF, end)
    requires forall i :: begin <= i < end ==> IsLineCharacter(text[i])
    ensures Find(text, CRLF, begin) == Some(end)
  {
    hide At;
    forall j: nat | begin <= j < end ensures !At(text, CRLF, j) {
      AtCrlf(text, j);
    }
    FindIs(text, CRLF, begin, end);
  }

  lemma AtInSuffix(text: string, pattern: string, lo: nat, index: nat)
    requires lo <= |text| && lo <= index
    ensures At(text, pattern, index) <==> At(text[lo..], pattern, index - lo)
  {
    assert text[lo..] == text[lo..|text|];
    if index + |pattern| <= |text| {
      AtInWindow(text, pattern, lo, |text|, index - lo);
    }
  }

  /** No blank line starts inside a line, nor at its line end when another character follows. */
  lemma NoBlankLine(text: string, n: nat, j: nat)
    requires At(text, CRLF, n) && forall i :: 0 <= i < n ==> IsLineCharacter(text[i])
    requires j < n || (j <= n + 1 && !At(text, CRLF, n + 2))
    ensures !At(text, CRLFCRLF, j)
  {
    hide At;
    AtBlankLine(text, j);
    AtCrlf(text, j);
    AtCrlf(text, n);
  }

  /** The first blank line of a block of lines is the one behind it. */
  lemma {:induction false} BlankLineBehind(lines: seq<string>, after: string)
    requires lines != [] && forall line :: line in lines ==> IsLine(line)
    ensures var text := LinesText(lines) + (CRLF + after);
            && 2 <= |LinesText(lines)| && At(text, CRLFCRLF, |LinesText(lines)| - 2)
            && forall j: nat :: j < |LinesText(lines)| - 2 ==> !At(text, CRLFCRLF, j)
  {
    hide At;
    var rest := LinesText(lines[1..]);
    var text, next := LinesText(lines) + (CRLF + after), rest + (CRLF + after);
    var n := |lines[0]|;
    assert IsLine(lines[0]);
    Regroup(lines[0], CRLF, rest, CRLF + after);
    assert text[n + 2..] == next;
    AtCrlf(text, n);
    AtCrlf(next, 0);
    AtInSuffix(text, CRLF, n + 2, n + 2);
    if |lines| == 1 {
      assert next == CRLF + after;
      AtBlankLine(text, n);
      forall j: nat | j < n ensures !At(text, CRLFCRLF, j) {
        NoBlankLine(text, n, j);
      }
    } else {
      BlankLineBehind(lines[1..], after);
      assert IsLine(lines[1]) && next[0] == lines[1][0] && IsLineCharacter(lines[1][0]);
      AtInSuffix(text, CRLFCRLF, n + 2, |LinesText(lines)| - 2);
      forall j: nat | j < |LinesText(lines)| - 2 ensures !At(text, CRLFCRLF, j) {
        if j < n + 2 {
          NoBlankLine(text, n, j);
        } else {
          AtInSuffix(text, CRLFCRLF, n + 2, j);
        }
      }
    }
  }

  /** The first line of a block of lines, as the parser cuts it off. */
  lemma SplitLine(head: string, begin: nat, line: string, rest: string)
    requires begin <= |head| && head[begin..] == line + (CRLF + rest) && IsLine(line)
    ensures Find(head, CRLF, begin) == Some(begin + |line|)
    ensures begin + |line| + 2 <= |head|
    ensures head[begin..begin + |line|] == line && head[begin + |line| + 2..] == rest
  {
    hide At;
    var tail, end := head[begin..], begin + |line|;
    assert tail[|line|] == '\r' && tail[|line| + 1] == '\n';
    assert head[end] == '\r' && head[end + 1] == '\n';
    AtCrlf(head, end);
    forall i | begin <= i < end ensures IsLineCharacter(head[i]) {
      assert head[i] == tail[i - begin] == line[i - begin];
    }
    LineEnd(head, begin, end);
    assert tail[|line| + 2..] == rest;
  }
}
