/** `{name}` interpolation and the `imprimir` rule, identical in
    roulang/src/interpreter.rs and src/interpreter.rs. */
module Interpolation {
  import opened Results
  import opened Text
  import opened Values

  /** What `{name}` turns into: the bound value's text, or `{name?}`. */
  function Placeholder(name: string, vars: map<string, Valor>, fo: FloatOps): string
  {
    if name in vars then ValorAString(vars[name], fo) else "{" + name + "?}"
  }

  /** How many characters of `t` come before its first `}`. */
  function NameLength(t: string): (n: nat)
    ensures n <= |t|
  {
    if t == [] || t[0] == '}' then 0 else 1 + NameLength(t[1..])
  }

  lemma {:induction false} NameLengthClosed(name: string, rest: string)
    requires '}' !in name
    ensures NameLength(name + ['}'] + rest) == |name|
    decreases |name|
  {
    if name != [] {
      assert (name + ['}'] + rest)[1..] == name[1..] + ['}'] + rest;
      NameLengthClosed(name[1..], rest);
    }
  }

  lemma {:induction false} NameLengthUnclosed(name: string)
    requires '}' !in name
    ensures NameLength(name) == |name|
    decreases |name|
  {
    if name != [] {
      NameLengthUnclosed(name[1..]);
    }
  }

  /** How many characters of `t` a group takes: the name and its `}`, if
      there is one. */
  function GroupEnd(t: string): (n: nat)
    ensures n <= |t|
  {
    if NameLength(t) < |t| then NameLength(t) + 1 else NameLength(t)
  }

  /** `expandir_variables`: characters outside braces are copied; `{` starts
      a name that runs to the next `}` (or to the end of the text), and the
      whole group is replaced by its placeholder. */
  function Expand(s: string, vars: map<string, Valor>, fo: FloatOps): string
    decreases |s|
  {
    if s == [] then []
    else if s[0] != '{' then [s[0]] + Expand(s[1..], vars, fo)
    else
      var t := s[1..];
      Placeholder(t[..NameLength(t)], vars, fo) + Expand(t[GroupEnd(t)..], vars, fo)
  }

  /** The loop of `expandir_variables`, over the characters of `texto`. */
  method ExpandirVariables(texto: string, vars: map<string, Valor>, fo: FloatOps) returns (result: string)
    ensures result == Expand(texto, vars, fo)
  {
    result := [];
    var i := 0;
    assert texto[0..] == texto;
    while i < |texto|
      invariant i <= |texto|
      invariant result + Expand(texto[i..], vars, fo) == Expand(texto, vars, fo)
      decreases |texto| - i
    {
      var piece, next := ExpandAt(texto, i, vars, fo);
      result := result + piece;
      i := next;
    }
  }

  /** One turn of the loop: the character at `i` copied, or the group that
      starts there replaced. */
  method ExpandAt(texto: string, i: nat, vars: map<string, Valor>, fo: FloatOps) returns (piece: string, next: nat)
    requires i < |texto|
    ensures i < next <= |texto|
    ensures Expand(texto[i..], vars, fo) == piece + Expand(texto[next..], vars, fo)
  {
    var c := texto[i];
    if c == '{' {
      var name;
      name, next := ScanName(texto, i + 1);
      ExpandGroupAt(texto, i, name, next, vars, fo);
      piece := if name in vars then ValorAString(vars[name], fo) else "{" + name + "?}";
    } else {
      ExpandCharAt(texto, i, vars, fo);
      piece := [c];
      next := i + 1;
    }
  }

  /** The inner loop: the characters up to the next `}`, and the position
      after that `}` (or the end of the text). */
  method ScanName(texto: string, start: nat) returns (name: string, next: nat)
    requires start <= |texto|
    ensures name == texto[start..][..NameLength(texto[start..])]
    ensures next == start + GroupEnd(texto[start..])
  {
    name := [];
    next := start;
    var closed := false;
    while next < |texto| && !closed
      invariant start <= next <= |texto|
      invariant !closed ==> name == texto[start..next] && NameLength(texto[start..]) == (next - start) + NameLength(texto[next..])
      invariant closed ==> start < next && name == texto[start..next - 1] && NameLength(texto[start..]) == next - 1 - start
      invariant closed ==> next - 1 - start < |texto[start..]|
      decreases |texto| - next, if closed then 0 else 1
    {
      assert texto[next..][1..] == texto[next + 1..];
      if texto[next] == '}' {
        next := next + 1;
        closed := true;
      } else {
        name := name + [texto[next]];
        next := next + 1;
      }
    }
  }

  lemma ExpandChar(s: string, vars: map<string, Valor>, fo: FloatOps)
    requires s != [] && s[0] != '{'
    ensures Expand(s, vars, fo) == [s[0]] + Expand(s[1..], vars, fo)
  {
  }

  lemma ExpandCharAt(texto: string, i: nat, vars: map<string, Valor>, fo: FloatOps)
    requires i < |texto| && texto[i] != '{'
    ensures Expand(texto[i..], vars, fo) == [texto[i]] + Expand(texto[i + 1..], vars, fo)
  {
    assert texto[i..][1..] == texto[i + 1..];
    ExpandChar(texto[i..], vars, fo);
  }

  lemma ExpandGroupAt(texto: string, i: nat, name: string, next: nat, vars: map<string, Valor>, fo: FloatOps)
    requires i < |texto| && texto[i] == '{'
    requires name == texto[i + 1..][..NameLength(texto[i + 1..])]
    requires next == i + 1 + GroupEnd(texto[i + 1..])
    ensures Expand(texto[i..], vars, fo) == Placeholder(name, vars, fo) + Expand(texto[next..], vars, fo)
  {
    var t := texto[i + 1..];
    assert texto[i..][1..] == t;
    assert t[GroupEnd(t)..] == texto[next..];
  }

  /** One `{...}` group at the head of `s`. */
  lemma ExpandGroup(s: string, t: string, name: string, closed: bool, vars: map<string, Valor>, fo: FloatOps)
    requires s != [] && s[0] == '{' && t == s[1..] && '}' !in name
    requires closed ==> |name| < |t| && t[..|name|] == name && t[|name|] == '}'
    requires !closed ==> name == t
    ensures Expand(s, vars, fo) == Placeholder(name, vars, fo) + Expand(t[if closed then |name| + 1 else |t|..], vars, fo)
  {
    assert s[1..] == t;
    if closed {
      assert t == name + ['}'] + t[|name| + 1..];
      NameLengthClosed(name, t[|name| + 1..]);
    } else {
      NameLengthUnclosed(name);
      assert t[..|t|] == name;
    }
  }

  /** Text without `{` comes out unchanged. */
  lemma {:induction false} ExpandPlain(s: string, vars: map<string, Valor>, fo: FloatOps)
    requires '{' !in s
    ensures Expand(s, vars, fo) == s
    decreases |s|
  {
    if s != [] {
      ExpandChar(s, vars, fo);
      ExpandPlain(s[1..], vars, fo);
      assert s == [s[0]] + s[1..];
    }
  }

  /** Expansion works left to right: plain text before the first `{` is
      copied and the rest is expanded on its own. */
  lemma {:induction false} ExpandPlainPrefix(x: string, y: string, vars: map<string, Valor>, fo: FloatOps)
    requires '{' !in x
    ensures Expand(x + y, vars, fo) == x + Expand(y, vars, fo)
    decreases |x|
  {
    if x != [] {
      ExpandChar(x + y, vars, fo);
      assert (x + y)[0] == x[0] && (x + y)[1..] == x[1..] + y;
      ExpandPlainPrefix(x[1..], y, vars, fo);
      assert Expand(x + y, vars, fo) == [x[0]] + (x[1..] + Expand(y, vars, fo));
      assert x == [x[0]] + x[1..];
    } else {
      assert x + y == y;
    }
  }

  /** A closed group `{name}` is replaced by its placeholder and the text
      after the `}` is expanded on its own. */
  lemma ExpandClosed(name: string, rest: string, vars: map<string, Valor>, fo: FloatOps)
    requires '}' !in name
    ensures Expand("{" + name + "}" + rest, vars, fo) == Placeholder(name, vars, fo) + Expand(rest, vars, fo)
  {
    var s := "{" + name + "}" + rest;
    assert s[1..] == name + ['}'] + rest;
    ExpandGroup(s, s[1..], name, true, vars, fo);
    assert s[1..][|name| + 1..] == rest;
  }

  /** An unclosed `{` takes the rest of the text as the name. */
  lemma ExpandUnclosed(name: string, vars: map<string, Valor>, fo: FloatOps)
    requires '}' !in name
    ensures Expand("{" + name, vars, fo) == Placeholder(name, vars, fo)
  {
    var s := "{" + name;
    assert s[1..] == name;
    ExpandGroup(s, name, name, false, vars, fo);
    assert name[|name|..] == [];
  }

  /** `imprimir` with a bound name in braces shows the value. */
  lemma ExpandBound(pre: string, name: string, post: string, vars: map<string, Valor>, fo: FloatOps)
    requires '{' !in pre && '{' !in post && '}' !in name && name in vars
    ensures Expand(pre + "{" + name + "}" + post, vars, fo) == pre + ValorAString(vars[name], fo) + post
  {
    assert pre + "{" + name + "}" + post == pre + ("{" + name + "}" + post);
    ExpandPlainPrefix(pre, "{" + name + "}" + post, vars, fo);
    ExpandClosed(name, post, vars, fo);
    ExpandPlain(post, vars, fo);
  }

  /** The line `imprimir` shows for its (raw) text: the text is trimmed;
      text in double quotes is interpolated; otherwise a bound name shows its
      value and anything else is shown as it is. A trimmed text that is one
      double quote makes the slice `[1..0]` panic. */
  function PrintLine(texto: string, vars: map<string, Valor>, fo: FloatOps): Result<string, Panic>
  {
    var t := Trim(texto);
    if StartsWith(t, "\"") && EndsWith(t, "\"") then
      if |t| < 2 then Err(SliceOutOfRange)
      else Ok(Expand(t[1..|t| - 1], vars, fo))
    else if t in vars then Ok(ValorAString(vars[t], fo))
    else Ok(t)
  }

  /** `imprimir` panics exactly when its trimmed text is a lone `"`. */
  lemma PrintPanics(texto: string, vars: map<string, Valor>, fo: FloatOps)
    ensures PrintLine(texto, vars, fo).Err? <==> Trim(texto) == "\""
  {
    var t := Trim(texto);
    if |t| == 1 && t[0] == '"' {
      assert t == "\"";
    }
  }

  /** A quoted text shows its interpolated contents. */
  lemma PrintQuoted(texto: string, inner: string, vars: map<string, Valor>, fo: FloatOps)
    requires Trim(texto) == "\"" + inner + "\""
    ensures PrintLine(texto, vars, fo) == Ok(Expand(inner, vars, fo))
  {
    var t := Trim(texto);
    assert t[..1] == "\"" && t[|t| - 1..] == "\"";
    assert t[1..|t| - 1] == inner;
  }

  /** A text not enclosed in double quotes (possibly opening one it never
      closes) that names a bound variable shows the value; any other such
      text is shown trimmed. */
  lemma PrintUnquoted(texto: string, vars: map<string, Valor>, fo: FloatOps)
    requires !(StartsWith(Trim(texto), "\"") && EndsWith(Trim(texto), "\""))
    ensures Trim(texto) in vars ==> PrintLine(texto, vars, fo) == Ok(ValorAString(vars[Trim(texto)], fo))
    ensures Trim(texto) !in vars ==> PrintLine(texto, vars, fo) == Ok(Trim(texto))
  {
  }
}
