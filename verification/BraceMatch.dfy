/** Finding the brace that closes a block of Zig source, past comments, multi-line strings, strings and
    characters. The scanner jumps over these; what it finds is what a lexer finds that looks at every
    character in turn. */
module BraceMatch {
  import opened Options

  // ---------------------------------------------------------------------------------------------
  // The lexer, one character at a time
  // ---------------------------------------------------------------------------------------------

  /** In code, in a comment or a line of a multi-line string, inside quotes, or behind a backslash there. */
  datatype Mode = Code | Line | Quoted(quote: char) | Escaped(quote: char)

  predicate StartsLine(src: string, k: nat)
    requires k < |src|
  {
    k + 1 < |src| && src[k] == src[k + 1] && (src[k] == '/' || src[k] == '\\')
  }

  function Next(src: string, k: nat, m: Mode): Mode
    requires k < |src|
  {
    match m
    case Code => if StartsLine(src, k) then Line else if src[k] == '"' || src[k] == '\'' then Quoted(src[k]) else Code
    case Line => if src[k] == '\n' then Code else Line
    case Quoted(q) => if src[k] == q then Code else if src[k] == '\\' then Escaped(q) else Quoted(q)
    case Escaped(q) => Quoted(q)
  }

  /** The mode before character `k`, when the lexer starts in code at `start`. */
  function ModeAt(src: string, start: nat, k: nat): Mode
    requires start <= k <= |src|
  {
    if k == start then Code else Next(src, k - 1, ModeAt(src, start, k - 1))
  }

  predicate BraceAt(src: string, start: nat, k: nat, brace: char)
    requires start <= k < |src|
  {
    ModeAt(src, start, k) == Code && src[k] == brace
  }

  /** Braces opened and not closed before character `k`. */
  function Depth(src: string, start: nat, k: nat): int
    requires start <= k <= |src|
  {
    if k == start then 0
    else Depth(src, start, k - 1) + if BraceAt(src, start, k - 1, '{') then 1 else if BraceAt(src, start, k - 1, '}') then -1 else 0
  }

  /** The brace that closes everything opened since `start`. */
  predicate Closes(src: string, start: nat, k: nat)
    requires start <= k < |src|
  {
    BraceAt(src, start, k, '}') && Depth(src, start, k) == 1
  }

  // ---------------------------------------------------------------------------------------------
  // The scanner
  // ---------------------------------------------------------------------------------------------

  /** Nothing has closed the block up to character `i`. */
  ghost predicate Open(src: string, start: nat, i: nat)
    requires start <= i <= |src|
  {
    forall k {:trigger Closes(src, start, k)} :: start <= k < i ==> !Closes(src, start, k)
  }

  /** The lexer in front of character `i`. */
  ghost predicate LexedTo(src: string, start: nat, i: nat, m: Mode, depth: int)
    requires start <= i <= |src|
  {
    ModeAt(src, start, i) == m && Depth(src, start, i) == depth && Open(src, start, i)
  }

  /** A character that is no brace in code. */
  lemma StepOver(src: string, start: nat, i: nat, m: Mode, depth: int)
    requires start <= i < |src| && LexedTo(src, start, i, m, depth)
    requires m != Code || (src[i] != '{' && src[i] != '}')
    ensures LexedTo(src, start, i + 1, Next(src, i, m), depth)
  {
  }

  /** The end of the line, or of the source. */
  method LineEnd(src: string, i: nat, ghost start: nat, ghost depth: int) returns (j: nat)
    requires start <= i < |src| && StartsLine(src, i) && LexedTo(src, start, i, Code, depth)
    ensures i < j <= |src| && Open(src, start, j) && Depth(src, start, j) == depth
    ensures ModeAt(src, start, j) == Line && (j < |src| ==> src[j] == '\n')
  {
    StepOver(src, start, i, Code, depth);
    j := i + 1;
    while j < |src| && src[j] != '\n'
      invariant i < j <= |src| && LexedTo(src, start, j, Line, depth)
    {
      StepOver(src, start, j, Line, depth);
      j := j + 1;
    }
  }

  /** The closing quote, or the end of the source, which a backslash may overshoot. */
  method QuoteEnd(src: string, i: nat, ghost start: nat, ghost depth: int) returns (j: nat)
    requires start <= i < |src| && (src[i] == '"' || src[i] == '\'') && LexedTo(src, start, i, Code, depth)
    ensures i < j <= |src| + 1
    ensures j < |src| ==> src[j] == src[i] && LexedTo(src, start, j, Quoted(src[i]), depth)
    ensures j >= |src| ==> Open(src, start, |src|)
  {
    var quote := src[i];
    StepOver(src, start, i, Code, depth);
    j := i + 1;
    while j < |src| && src[j] != quote
      invariant i < j <= |src| + 1
      invariant j <= |src| ==> LexedTo(src, start, j, Quoted(quote), depth)
      invariant j > |src| ==> Open(src, start, |src|)
      decreases |src| - j
    {
      StepOver(src, start, j, Quoted(quote), depth);
      if src[j] == '\\' {
        if j + 1 < |src| {
          StepOver(src, start, j + 1, Escaped(quote), depth);
        }
        j := j + 2;
      } else {
        j := j + 1;
      }
    }
  }

  /** The index just past the brace that closes the block at `start`, or nothing if the lexer finds no
      such brace. */
  method MatchBrace(src: string, start: nat) returns (end: Option<nat>)
    requires start <= |src|
    ensures end.Some? ==> start < end.value <= |src| && Closes(src, start, end.value - 1) && Open(src, start, end.value - 1)
    ensures end == None ==> Open(src, start, |src|)
  {
    var depth := 0;
    var i := start;
    while i < |src|
      invariant start <= i
      invariant i <= |src| ==> Depth(src, start, i) == depth && Open(src, start, i)
      invariant i < |src| ==> ModeAt(src, start, i) == Code || (ModeAt(src, start, i) == Line && src[i] == '\n')
      invariant i > |src| ==> Open(src, start, |src|)
      decreases |src| - i
    {
      var c := src[i];
      if c == '/' && i + 1 < |src| && src[i + 1] == '/' {
        i := LineEnd(src, i, start, depth);
        continue;
      }
      // A line of a multi-line string.
      if c == '\\' && i + 1 < |src| && src[i + 1] == '\\' {
        i := LineEnd(src, i, start, depth);
        continue;
      }
      if c == '"' || c == '\'' {
        i := QuoteEnd(src, i, start, depth);
        if i < |src| {
          StepOver(src, start, i, Quoted(c), depth);
        }
      } else if c == '{' {
        depth := depth + 1;
      } else if c == '}' {
        depth := depth - 1;
        if depth == 0 {
          return Some(i + 1);
        }
      }
      i := i + 1;
    }
    end := None;
  }

  /** While a block that starts with a brace is open, the lexer is inside it. */
  lemma {:induction false} InsideWhileOpen(src: string, start: nat, i: nat)
    requires start < i <= |src| && src[start] == '{' && Open(src, start, i)
    ensures Depth(src, start, i) >= 1
  {
    assert ModeAt(src, start, start) == Code && Depth(src, start, start) == 0;
    if i > start + 1 {
      InsideWhileOpen(src, start, i - 1);
      assert !Closes(src, start, i - 1);
    }
  }
}
