/**
 The job's env file (runner/sandbox.go `shQuote`, `envFile`) against the shell that sources it.
 The reader follows sections 2.2.1 (escape character) and 2.2.2 (single-quotes) of the Shell Command
 Language, POSIX.1-2017 XCU; it answers nothing for text whose meaning needs any other rule.
 */
module EnvFile {
  import opened Options

  datatype Result<+T> = Ok(value: T) | InvalidName(name: string)

  // ── the printer ────────────────────────────────────────────────────────────

  /** strings.ReplaceAll(s, "'", `'\''`) */
  function Escape(s: string): string {
    if s == "" then ""
    else (if s[0] == '\'' then "'\\''" else [s[0]]) + Escape(s[1..])
  }

  function ShQuote(s: string): string {
    "'" + Escape(s) + "'"
  }

  predicate IsNameStart(c: char) { 'A' <= c <= 'Z' || 'a' <= c <= 'z' || c == '_' }

  predicate IsNameChar(c: char) { IsNameStart(c) || '0' <= c <= '9' }

  predicate ValidEnvName(name: string) {
    name != "" && IsNameStart(name[0]) && forall c :: c in name ==> IsNameChar(c)
  }

  /** Both sides of every bound of the names the runner lets pass. */
  lemma {:induction false} NameBounds()
    ensures IsNameStart('A') && IsNameStart('Z') && !IsNameStart('@') && !IsNameStart('[')
    ensures IsNameStart('a') && IsNameStart('z') && !IsNameStart('`') && !IsNameStart('{')
    ensures IsNameStart('_') && !IsNameStart('0') && !IsNameChar('-')
    ensures IsNameChar('0') && IsNameChar('9') && !IsNameChar('/') && !IsNameChar(':')
    ensures forall c :: IsNameStart(c) ==> IsNameChar(c)
  {
  }

  function Assignment(v: (string, string)): string {
    v.0 + "=" + ShQuote(v.1) + "\n"
  }

  function EnvText(vars: seq<(string, string)>): string {
    if vars == [] then "" else Assignment(vars[0]) + EnvText(vars[1..])
  }

  lemma {:induction false} EnvTextSnoc(vars: seq<(string, string)>, v: (string, string))
    ensures EnvText(vars + [v]) == EnvText(vars) + Assignment(v)
  {
    if vars == [] {
      assert vars + [v] == [v];
      assert EnvText([v]) == Assignment(v) + EnvText([]);
    } else {
      assert (vars + [v])[1..] == vars[1..] + [v];
      EnvTextSnoc(vars[1..], v);
    }
  }

  method RenderEnvFile(vars: seq<(string, string)>) returns (r: Result<string>)
    ensures r.Ok? <==> forall v :: v in vars ==> ValidEnvName(v.0)
    ensures r.Ok? ==> r.value == EnvText(vars)
    ensures r.InvalidName? ==> exists k :: 0 <= k < |vars| && vars[k].0 == r.name && !ValidEnvName(r.name)
                                 && forall j :: 0 <= j < k ==> ValidEnvName(vars[j].0)
  {
    var b := "";
    for i := 0 to |vars|
      invariant b == EnvText(vars[..i])
      invariant forall j :: 0 <= j < i ==> ValidEnvName(vars[j].0)
    {
      if !ValidEnvName(vars[i].0) {
        return InvalidName(vars[i].0);
      }
      EnvTextSnoc(vars[..i], vars[i]);
      assert vars[..i + 1] == vars[..i] + [vars[i]];
      b := b + (vars[i].0 + "=" + ShQuote(vars[i].1) + "\n");
    }
    assert vars[..|vars|] == vars;
    return Ok(b);
  }

  // ── the reader ─────────────────────────────────────────────────────────────

  /** Where an unquoted word ends. */
  predicate AtEnd(s: string) {
    s == "" || s[0] in " \t\n"
  }

  /** Unquoted, these mean something other than themselves, or may. */
  predicate Special(c: char) {
    c in "|&;<>()$`\"*?[#~=%\0"
  }

  /**
   The word at the start of `s`, inside single quotes or not, and what follows it. Between single
   quotes every character is itself; outside, a backslash makes the next character itself, and a
   backslash before a newline vanishes with it.
   */
  function Word(s: string, quoted: bool): (r: Option<(string, string)>)
    ensures r.Some? ==> |r.value.1| <= |s|
    decreases |s|
  {
    if quoted then
      if s == "" || s[0] == '\0' then None
      else if s[0] == '\'' then Word(s[1..], false)
      else Prepend(s[0], Word(s[1..], true))
    else if AtEnd(s) then Some(("", s))
    else if s[0] == '\'' then Word(s[1..], true)
    else if s[0] == '\\' then
      if |s| == 1 || s[1] == '\0' then None
      else if s[1] == '\n' then Word(s[2..], false)
      else Prepend(s[1], Word(s[2..], false))
    else if Special(s[0]) then None
    else Prepend(s[0], Word(s[1..], false))
  }

  function Prepend(c: char, r: Option<(string, string)>): (p: Option<(string, string)>)
    ensures p.Some? ==> r.Some? && p.value.1 == r.value.1
  {
    match r
    case None => None
    case Some((word, rest)) => Some(([c] + word, rest))
  }

  /** Length of the longest run of name characters `s` starts with. */
  function NameLen(s: string): (n: nat)
    ensures n <= |s|
    ensures forall k :: 0 <= k < n ==> IsNameChar(s[k])
  {
    if s == "" || !IsNameChar(s[0]) then 0 else 1 + NameLen(s[1..])
  }

  /** The assignments of a sourced file, one command a line. */
  function ReadEnv(s: string): Option<seq<(string, string)>>
    decreases |s|
  {
    if s == "" then Some([])
    else
      var n := NameLen(s);
      if n == 0 || !IsNameStart(s[0]) || n == |s| || s[n] != '=' then None
      else
        match Word(s[n + 1..], false)
        case None => None
        case Some((value, rest)) =>
          if rest == "" then Some([(s[..n], value)])
          else if rest[0] != '\n' then None
          else
            match ReadEnv(rest[1..])
            case None => None
            case Some(more) => Some([(s[..n], value)] + more)
  }

  predicate NulFree(s: string) { '\0' !in s }

  // ── the reader undoes the printer ──────────────────────────────────────────

  lemma {:induction false} ReadEscaped(v: string, rest: string)
    requires AtEnd(rest)
    ensures Word(Escape(v) + "'" + rest, true) == if NulFree(v) then Some((v, rest)) else None
    decreases |v|
  {
    var s := Escape(v) + "'" + rest;
    if v == "" {
      assert s[1..] == rest;
    } else {
      var more := Escape(v[1..]) + "'" + rest;
      ReadEscaped(v[1..], rest);
      if v[0] == '\'' {
        assert s == "'\\''" + more;
        ReadEscapedQuote(more);
      } else {
        assert s == [v[0]] + more;
        assert s[1..] == more;
      }
      hide Word, Escape;
      assert v == [v[0]] + v[1..];
    }
  }

  /** The four characters printed for a quote close the quoting, add a quote, and open it again. */
  lemma {:induction false} ReadEscapedQuote(more: string)
    ensures Word("'\\''" + more, true) == Prepend('\'', Word(more, true))
  {
    var s0, s1, s2 := "'\\''" + more, "\\''" + more, "'" + more;
    assert s0[1..] == s1;
    assert s1[2..] == s2;
    assert s2[1..] == more;
    assert Word(s0, true) == Word(s1, false);
    assert Word(s1, false) == Prepend('\'', Word(s2, false));
    assert Word(s2, false) == Word(more, true);
  }

  /** shQuote(s) is read back as the single word s, for every NUL-free s and only for those. */
  lemma {:induction false} ShQuoteIsOneWord(v: string, rest: string)
    requires AtEnd(rest)
    ensures Word(ShQuote(v) + rest, false) == if NulFree(v) then Some((v, rest)) else None
  {
    var s := ShQuote(v) + rest;
    assert s[1..] == Escape(v) + "'" + rest;
    assert s[0] == '\'' && !AtEnd(s);
    ReadEscaped(v, rest);
  }

  lemma {:induction false} NameLenOf(name: string, rest: string)
    requires forall c :: c in name ==> IsNameChar(c)
    requires rest != "" && !IsNameChar(rest[0])
    ensures NameLen(name + rest) == |name|
  {
    if name == "" {
      assert name + rest == rest;
    } else {
      assert (name + rest)[1..] == name[1..] + rest;
      NameLenOf(name[1..], rest);
    }
  }

  /** One line: its name and value, then the rest of the file. */
  lemma {:induction false} ReadLine(v: (string, string), rest: string)
    requires ValidEnvName(v.0)
    ensures ReadEnv(Assignment(v) + rest) ==
              match ReadEnv(rest)
              case None => None
              case Some(more) => if NulFree(v.1) then Some([v] + more) else None
  {
    hide ShQuote, Word;
    var s, n := Assignment(v) + rest, |v.0|;
    var after := ShQuote(v.1) + ("\n" + rest);
    assert s == v.0 + ("=" + after);
    NameLenOf(v.0, "=" + after);
    assert s[..n] == v.0 && s[n] == '=' && s[n + 1..] == after;
    ShQuoteIsOneWord(v.1, "\n" + rest);
    assert ("\n" + rest)[1..] == rest;
  }

  /**
   Sourcing the env file gives the job exactly the names and values it was printed from, for all
   values with any quotes, newlines or backslashes in them; a NUL, which no shell word can hold, is
   the only thing that can spoil it.
   */
  lemma {:induction false} EnvFileReadBack(vars: seq<(string, string)>)
    requires forall v :: v in vars ==> ValidEnvName(v.0)
    ensures ReadEnv(EnvText(vars)) == if forall v :: v in vars ==> NulFree(v.1) then Some(vars) else None
  {
    if vars != [] {
      EnvFileReadBack(vars[1..]);
      ReadLine(vars[0], EnvText(vars[1..]));
      assert vars == [vars[0]] + vars[1..];
    }
  }
}
