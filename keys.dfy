/** Keyboard input: the key name is lower-cased and the arrow keys and W, A, S, D
    name a heading. */
module Keys {
  import opened Common
  import opened Grid

  /** ASCII lower-casing of one character. */
  function LowerChar(c: char): char {
    if 'A' <= c <= 'Z' then (c as int + 32) as char else c
  }

  /** ASCII lower-casing of a key name, character by character. */
  function LowerAscii(s: string): (t: string)
    ensures |t| == |s|
    ensures forall i :: 0 <= i < |s| ==> t[i] == LowerChar(s[i])
  {
    if s == [] then [] else [LowerChar(s[0])] + LowerAscii(s[1..])
  }

  /** The heading a lower-cased key asks for, if any. */
  function KeyDirection(key: string): Option<Direction> {
    if key == "arrowup" || key == "w" then Some(Up)
    else if key == "arrowdown" || key == "s" then Some(Down)
    else if key == "arrowleft" || key == "a" then Some(Left)
    else if key == "arrowright" || key == "d" then Some(Right)
    else None
  }
}
