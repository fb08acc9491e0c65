// The SQLite text functions of the staging statement: `trim` strips spaces
// only, `lower` folds ASCII only.
module SqlText {

  function TrimLeft(s: string): string {
    if s != "" && s[0] == ' ' then TrimLeft(s[1..]) else s
  }

  function TrimRight(s: string): string {
    if s != "" && s[|s| - 1] == ' ' then TrimRight(s[..|s| - 1]) else s
  }

  function Trim(s: string): string {
    TrimRight(TrimLeft(s))
  }

  predicate Bare(s: string) {
    s == "" || (s[0] != ' ' && s[|s| - 1] != ' ')
  }

  lemma {:induction false} TrimLeftBare(s: string)
    ensures TrimLeft(s) == "" || TrimLeft(s)[0] != ' '
  {
    if s != "" && s[0] == ' ' {
      TrimLeftBare(s[1..]);
    }
  }

  lemma {:induction false} TrimRightBare(s: string)
    requires s == "" || s[0] != ' '
    ensures Bare(TrimRight(s))
  {
    if s != "" && s[|s| - 1] == ' ' {
      TrimRightBare(s[..|s| - 1]);
    }
  }

  lemma TrimIsBare(s: string)
    ensures Bare(Trim(s))
  {
    TrimLeftBare(s);
    TrimRightBare(TrimLeft(s));
  }

  lemma TrimOfBare(s: string)
    requires Bare(s)
    ensures Trim(s) == s
  {}

  function LowerChar(c: char): char {
    if 'A' <= c <= 'Z' then c + 32 as char else c
  }

  function Lower(s: string): (r: string)
    ensures |r| == |s|
    ensures forall i :: 0 <= i < |s| ==> r[i] == LowerChar(s[i])
  {
    seq(|s|, i requires 0 <= i < |s| => LowerChar(s[i]))
  }

  lemma LowerOfBare(s: string)
    requires Bare(s)
    ensures Bare(Lower(s))
  {}
}
