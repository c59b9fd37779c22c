/** The `IN (...)` list of the export's symbol filter, and a lexer for SQL character string
    literals (ISO/IEC 9075-2, section 5.3): a doubled quote inside a literal stands for one quote,
    and there are no backslash escapes. */
module Quoting {
  import opened Options

  const QUOTE: char := '\''

  function Escape(name: string): string {
    if name == "" then ""
    else (if name[0] == QUOTE then [QUOTE, QUOTE] else [name[0]]) + Escape(name[1..])
  }

  function Quoted(name: string): string {
    [QUOTE] + Escape(name) + [QUOTE]
  }

  function Join(names: seq<string>): string
    requires names != []
  {
    if |names| == 1 then Quoted(names[0]) else Quoted(names[0]) + ", " + Join(names[1..])
  }

  /** No names, no condition. */
  function SymbolCondition(names: seq<string>): string {
    if names == [] then "" else "s.name IN (" + Join(names) + ")"
  }

  // ----- The lexer -----

  /** Reads a literal after its opening quote: the value and the text after the closing quote. */
  function LexBody(s: string): Option<(string, string)> {
    if s == "" then None
    else if s[0] != '\'' then
      match LexBody(s[1..])
      case None => None
      case Some((value, rest)) => Some(([s[0]] + value, rest))
    else if |s| > 1 && s[1] == '\'' then
      match LexBody(s[2..])
      case None => None
      case Some((value, rest)) => Some((['\''] + value, rest))
    else Some(("", s[1..]))
  }

  /** Literals separated by a comma and a space. */
  function LexList(s: string): Option<(seq<string>, string)>
    decreases |s|
  {
    if s == "" || s[0] != '\'' then None
    else
      match LexBody(s[1..])
      case None => None
      case Some((value, rest)) =>
        if |rest| < |s| && ", " <= rest then
          match LexList(rest[2..])
          case None => None
          case Some((values, end)) => Some(([value] + values, end))
        else Some(([value], rest))
  }

  /** The names that the condition's text denotes: a list in parentheses and nothing after it. */
  function LexCondition(s: string): Option<seq<string>> {
    var head := "s.name IN (";
    if s == "" then Some([])
    else if !(head <= s) then None
    else
      match LexList(s[|head|..])
      case None => None
      case Some((values, end)) => if end == ")" then Some(values) else None
  }

  lemma {:induction false} BodyRoundTrip(name: string, rest: string)
    requires rest == "" || rest[0] != QUOTE
    ensures LexBody(Escape(name) + [QUOTE] + rest) == Some((name, rest))
    decreases |name|
  {
    var s := Escape(name) + [QUOTE] + rest;
    if name == "" {
      assert s == [QUOTE] + rest && s[1..] == rest;
    } else {
      var tail := Escape(name[1..]) + [QUOTE] + rest;
      BodyRoundTrip(name[1..], rest);
      assert name == [name[0]] + name[1..];
      if name[0] == QUOTE {
        assert s == [QUOTE, QUOTE] + tail && s[2..] == tail;
      } else {
        assert s == [name[0]] + tail && s[1..] == tail;
      }
    }
  }

  lemma {:induction false} ListRoundTrip(names: seq<string>)
    requires names != []
    ensures LexList(Join(names) + ")") == Some((names, ")"))
    decreases |names|
  {
    hide LexBody, Escape;
    var s := Join(names) + ")";
    var name := names[0];
    if |names| == 1 {
      BodyRoundTrip(name, ")");
      assert s[1..] == Escape(name) + [QUOTE] + ")";
      assert names == [name];
    } else {
      var more := Join(names[1..]) + ")";
      var rest := ", " + more;
      BodyRoundTrip(name, rest);
      assert s == Quoted(name) + rest;
      assert s[1..] == Escape(name) + [QUOTE] + rest;
      assert rest[2..] == more;
      ListRoundTrip(names[1..]);
      assert names == [name] + names[1..];
    }
  }

  /** Whatever quotes, commas or parentheses the names contain, the condition denotes exactly the
      requested list. */
  lemma ConditionRoundTrip(names: seq<string>)
    ensures LexCondition(SymbolCondition(names)) == Some(names)
  {
    hide LexList, Join;
    var head := "s.name IN (";
    if names != [] {
      ListRoundTrip(names);
      var s := SymbolCondition(names);
      assert s == head + (Join(names) + ")");
      assert s[|head|..] == Join(names) + ")";
    }
  }
}
