/** How Python reads numbers from text, for ASCII digits. */
module PythonText {
  import opened Wrappers

  /** The whitespace of Python's str. */
  predicate IsSpace(c: char) {
    c == ' ' || '\t' <= c <= '\r' || '\U{1c}' <= c <= '\U{1f}' || c == '\U{85}' || c == '\U{a0}'
    || c == '\U{1680}' || '\U{2000}' <= c <= '\U{200a}' || c == '\U{2028}' || c == '\U{2029}'
    || c == '\U{202f}' || c == '\U{205f}' || c == '\U{3000}'
  }

  /** The number written by a nonempty string of digits. */
  function ParseNat(s: string): Option<nat> {
    if s == [] then None
    else
      var last := s[|s| - 1];
      if !('0' <= last <= '9') then None
      else
        var d := (last as int - '0' as int) as nat;
        if |s| == 1 then Some(d)
        else match ParseNat(s[..|s| - 1])
          case None => None
          case Some(n) => Some(10 * n + d)
  }

  /** Digits in groups, with single underscores between them. */
  function ParseGrouped(s: string): Option<nat> {
    if s == [] then None
    else
      var last := s[|s| - 1];
      if !('0' <= last <= '9') then None
      else
        var d := (last as int - '0' as int) as nat;
        if |s| == 1 then Some(d)
        else
          var rest := if s[|s| - 2] == '_' then s[..|s| - 2] else s[..|s| - 1];
          match ParseGrouped(rest)
          case None => None
          case Some(n) => Some(10 * n + d)
  }

  function Stripped(s: string): string {
    if s != [] && IsSpace(s[0]) then Stripped(s[1..])
    else if s != [] && IsSpace(s[|s| - 1]) then Stripped(s[..|s| - 1])
    else s
  }

  /** `int(s)`; None where it raises ValueError. */
  function ParseInt(s: string): Option<int> {
    var t := Stripped(s);
    if t != [] && t[0] == '-' then
      match ParseGrouped(t[1..])
      case None => None
      case Some(n) => var i: int := n; Some(-i)
    else ParseGrouped(if t != [] && t[0] == '+' then t[1..] else t)
  }
}
