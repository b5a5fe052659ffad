/** Loading environment variables from the lines of a file: trimming, quotes, and the expansion of
    $NAME and ${NAME} in values. */
module Dotenv {
  import opened Options

  type Env = map<string, string>

  // ---------- searching ----------

  const NPOS := -1

  /** First position of c at or after pos. */
  function Find(s: string, c: char, pos: nat): (p: int)
    ensures NPOS <= p < |s|
    ensures p != NPOS ==> pos <= p && s[p] == c && forall i :: pos <= i < p ==> s[i] != c
    ensures p == NPOS ==> forall i :: pos <= i < |s| ==> s[i] != c
    decreases |s| - pos
  {
    if pos >= |s| then NPOS else if s[pos] == c then pos else Find(s, c, pos + 1)
  }

  /** First position of "${" at or after pos. */
  function FindTag(s: string, pos: nat): (p: int)
    ensures NPOS <= p < |s| - 1 || p == NPOS
    ensures p != NPOS ==> pos <= p && s[p] == '$' && s[p + 1] == '{'
    ensures forall i :: pos <= i < |s| - 1 && (i < p || p == NPOS) ==> !(s[i] == '$' && s[i + 1] == '{')
    decreases |s| - pos
  {
    if pos + 1 >= |s| then NPOS else if s[pos] == '$' && s[pos + 1] == '{' then pos else FindTag(s, pos + 1)
  }

  /** Start of the next variable, and whether its tag is "${". */
  function FindVarStart(s: string, pos: nat): (int, bool) {
    var p1, p2 := Find(s, '$', pos), FindTag(s, pos);
    var p := if p2 == NPOS || (p1 != NPOS && p1 < p2) then p1 else p2;
    (p, p != NPOS && p == p2)
  }

  /** Its end: a closing brace, or else a space or the end of the string. */
  function FindVarEnd(s: string, pos: nat, braced: bool): (p: int)
    requires pos <= |s|
    ensures p != NPOS ==> pos <= p <= |s|
  {
    var p := Find(s, if braced then '}' else ' ', pos);
    if p == NPOS && !braced then |s| else p
  }

  // ---------- trimming and quotes ----------

  predicate IsSpace(c: char) {
    c == ' ' || '\t' <= c <= '\r'
  }

  function LTrim(s: string): (t: string)
    ensures |t| <= |s| && s[|s| - |t|..] == t && (t == [] || !IsSpace(t[0]))
    ensures forall i :: 0 <= i < |s| - |t| ==> IsSpace(s[i])
  {
    if s != [] && IsSpace(s[0]) then LTrim(s[1..]) else s
  }

  function RTrim(s: string): (t: string)
    ensures t <= s && (t == [] || !IsSpace(t[|t| - 1]))
    ensures forall i :: |t| <= i < |s| ==> IsSpace(s[i])
  {
    if s != [] && IsSpace(s[|s| - 1]) then RTrim(s[..|s| - 1]) else s
  }

  function Trim(s: string): string {
    RTrim(LTrim(s))
  }

  function StripQuotes(s: string): (t: string)
    ensures t == s || s == "\"" + t + "\"" || s == "'" + t + "'"
    ensures t == s ==> |s| < 2 || s[0] != s[|s| - 1] || (s[0] != '"' && s[0] != '\'')
  {
    if |s| >= 2 && s[0] == s[|s| - 1] && (s[0] == '"' || s[0] == '\'') then s[1..|s| - 1] else s
  }

  /** What a C string keeps of s. */
  function CString(s: string): (t: string)
    ensures t <= s && '\0' !in t && (t == s || s[|t|] == '\0')
  {
    var p := Find(s, '\0', 0);
    if p == NPOS then s else s[..p]
  }

  /** getenv: the empty name is never found. */
  function Lookup(env: Env, name: string): Option<string> {
    if CString(name) != "" && CString(name) in env then Some(env[CString(name)]) else None
  }

  // ---------- what a value means ----------

  /** A value read left to right: plain text, then a variable and the rest, or the text before a "${"
      that is never closed and everything from there on. */
  datatype Template =
    | Text(text: string)
    | Unclosed(text: string, tag: string)
    | Variable(text: string, braced: bool, name: string, rest: Template)

  /** The first variable of a string. */
  datatype Found = NoVar | Open(start: nat) | Var(start: nat, braced: bool, name: string, next: nat)

  function VarAt(s: string, start: nat): (f: Found)
    requires start < |s| && s[start] == '$'
    ensures f.Var? ==> f.start == start < f.next <= |s|
    ensures !f.NoVar? && f.start == start
  {
    var braced := start + 1 < |s| && s[start + 1] == '{';
    var end := FindVarEnd(s, start, braced);
    if end == NPOS then Open(start)
    else if braced then Var(start, true, s[start + 2..end], end + 1)
    else Var(start, false, s[start + 1..end], end)
  }

  function Scan(s: string): Found {
    var i := Find(s, '$', 0);
    if i == NPOS then NoVar else VarAt(s, i)
  }

  function Parse(s: string): Template
    decreases |s|
  {
    match Scan(s)
    case NoVar => Text(s)
    case Open(i) => Unclosed(s[..i], s[i..])
    case Var(i, braced, name, next) => Variable(s[..i], braced, name, Parse(s[next..]))
  }

  function VariableText(braced: bool, name: string): string {
    if braced then "${" + name + "}" else "$" + name
  }

  function Spelling(t: Template): string {
    match t
    case Text(x) => x
    case Unclosed(x, tag) => x + tag
    case Variable(x, braced, name, rest) => x + VariableText(braced, name) + Spelling(rest)
  }

  /** A braced name runs up to the first brace, a bare one up to the first space or the end. */
  predicate VariableEnds(braced: bool, name: string, after: string) {
    if braced then '}' !in name
    else (' ' !in name && (name == "" || name[0] != '{') && (after == "" || after[0] == ' '))
  }

  predicate NeverCloses(tag: string) {
    |tag| >= 2 && tag[0] == '$' && tag[1] == '{' && '}' !in tag
  }

  predicate WellFormed(t: Template) {
    match t
    case Text(x) => '$' !in x
    case Unclosed(x, tag) => '$' !in x && NeverCloses(tag)
    case Variable(x, braced, name, rest) =>
      '$' !in x && VariableEnds(braced, name, Spelling(rest)) && WellFormed(rest)
  }

  lemma VarAtIsSpelled(s: string, start: nat)
    requires start < |s| && s[start] == '$'
    ensures var f := VarAt(s, start);
      && (f.Open? ==> NeverCloses(s[start..]))
      && (f.Var? ==> s[start..f.next] == VariableText(f.braced, f.name))
      && (f.Var? ==> VariableEnds(f.braced, f.name, s[f.next..]))
  {
    hide Find;
    var f := VarAt(s, start);
    if f.Var? {
      hide VarAt;
      SpelledAt(s, start, f.next, f.braced, f.name);
    }
  }

  lemma SpelledAt(s: string, start: nat, next: nat, braced: bool, name: string)
    requires start < next <= |s| && s[start] == '$'
    requires braced ==> start + 3 <= next && s[start + 1] == '{' && s[next - 1] == '}' && name == s[start + 2..next - 1]
    requires !braced ==> name == s[start + 1..next]
    ensures s[start..next] == VariableText(braced, name)
  {
    if braced {
      assert s[start..start + 2] == "${" && s[next - 1..next] == "}";
      assert s[start..next] == s[start..start + 2] + s[start + 2..next - 1] + s[next - 1..next];
    } else {
      assert s[start..start + 1] == "$";
      assert s[start..next] == s[start..start + 1] + s[start + 1..next];
    }
  }

  /** Reading a value loses nothing of it, and every name in it ends where it should. */
  lemma {:induction false} ParseIsLossless(s: string)
    ensures Spelling(Parse(s)) == s && WellFormed(Parse(s))
    decreases |s|
  {
    hide Find, VarAt, VariableText, VariableEnds;
    if Find(s, '$', 0) != NPOS {
      VarAtIsSpelled(s, Find(s, '$', 0));
    }
    match Scan(s)
    case NoVar =>
    case Open(i) =>
      assert s == s[..i] + s[i..];
    case Var(i, braced, name, next) =>
      ParseIsLossless(s[next..]);
      assert '$' !in s[..i];
      assert s == s[..i] + s[i..next] + s[next..];
  }

  lemma {:induction false} FindIsFirst(s: string, c: char, pos: nat, p: nat)
    requires pos <= p < |s| && s[p] == c && c !in s[pos..p]
    ensures Find(s, c, pos) == p
    decreases p - pos
  {
    if pos < p {
      assert s[pos] in s[pos..p] && s[pos + 1..p] == s[pos..p][1..];
      FindIsFirst(s, c, pos + 1, p);
    }
  }

  lemma BracedInText(x: string, name: string, after: string)
    requires '}' !in name
    ensures var s := x + ("${" + name + "}") + after;
      s[|x|] == '$' && VarAt(s, |x|) == Var(|x|, true, name, |x| + |name| + 3)
  {
    hide Find;
    var s, n := x + ("${" + name + "}") + after, |x|;
    var end := n + 2 + |name|;
    assert s[n + 2..end] == name && s[n] == '$' && s[n + 1] == '{' && s[end] == '}';
    assert '}' !in s[n..end] by {
      assert forall i :: n + 2 <= i < end ==> s[i] == name[i - n - 2];
    }
    FindIsFirst(s, '}', n, end);
  }

  lemma BareInText(x: string, name: string, after: string)
    requires VariableEnds(false, name, after)
    ensures var s := x + ("$" + name) + after;
      s[|x|] == '$' && VarAt(s, |x|) == Var(|x|, false, name, |x| + |name| + 1)
  {
    hide Find;
    var s, n := x + ("$" + name) + after, |x|;
    var end := n + 1 + |name|;
    assert s[n + 1..end] == name && s[n] == '$';
    assert n + 1 < |s| ==> s[n + 1] == if name != "" then name[0] else after[0];
    assert ' ' !in s[n..end] by {
      assert forall i :: n + 1 <= i < end ==> s[i] == name[i - n - 1];
    }
    if after != "" {
      assert s[end] == after[0];
      FindIsFirst(s, ' ', n, end);
    } else {
      assert s[n..end] == s[n..];
    }
  }

  lemma VarAtOfText(x: string, braced: bool, name: string, after: string)
    requires VariableEnds(braced, name, after)
    ensures var s := x + VariableText(braced, name) + after;
      && s[|x|] == '$'
      && VarAt(s, |x|) == Var(|x|, braced, name, |x| + |VariableText(braced, name)|)
  {
    hide VarAt;
    if braced {
      BracedInText(x, name, after);
    } else {
      BareInText(x, name, after);
    }
  }

  /** Only one well-formed reading spells a given value, so Parse finds the one there is. */
  lemma {:induction false} ParseReadsSpelling(t: Template)
    requires WellFormed(t)
    ensures Parse(Spelling(t)) == t
  {
    hide Find, FindVarEnd, VarAt, VariableEnds, VariableText;
    var s := Spelling(t);
    match t
    case Text(x) =>
      assert Find(s, '$', 0) == NPOS;
    case Unclosed(x, tag) =>
      assert s[..|x|] == x && s[|x|..] == tag;
      FindIsFirst(s, '$', 0, |x|);
      OpenOfText(x, tag);
    case Variable(x, braced, name, rest) =>
      VarAtOfText(x, braced, name, Spelling(rest));
      assert s[0..|x|] == x;
      FindIsFirst(s, '$', 0, |x|);
      assert s[|x| + |VariableText(braced, name)|..] == Spelling(rest);
      ParseReadsSpelling(rest);
  }

  lemma OpenOfText(x: string, tag: string)
    requires NeverCloses(tag)
    ensures (x + tag)[|x|] == '$' && VarAt(x + tag, |x|) == Open(|x|)
  {
    hide Find;
    var s := x + tag;
    assert s[|x|] == tag[0] && s[|x| + 1] == tag[1];
    assert forall i :: |x| <= i < |s| ==> s[i] == tag[i - |x|] && s[i] in tag;
  }

  /** Every variable is closed and has a value. */
  predicate Resolved(env: Env, t: Template) {
    match t
    case Text(_) => true
    case Unclosed(_, _) => false
    case Variable(_, _, name, rest) => Lookup(env, RTrim(name)).Some? && Resolved(env, rest)
  }

  /** Variables are replaced once, by their values as they are; a missing one by nothing.  Before an
      unclosed tag the text appears twice. */
  function Meaning(env: Env, t: Template): string {
    match t
    case Text(x) => x
    case Unclosed(x, tag) => x + x + tag
    case Variable(x, _, name, rest) => x + Lookup(env, RTrim(name)).GetOr("") + Meaning(env, rest)
  }

  /** The text a value resolves to, and whether all its variables were resolved. */
  function Resolve(env: Env, s: string): (string, bool) {
    (Meaning(env, Parse(s)), Resolved(env, Parse(s)))
  }

  function Names(t: Template): set<string> {
    if t.Variable? then {CString(RTrim(t.name))} + Names(t.rest) else {}
  }

  /** Only the variables a value names matter to it. */
  lemma {:induction false} OnlyNamesMatter(e1: Env, e2: Env, t: Template)
    requires forall k :: k in Names(t) ==> (k in e1 <==> k in e2) && (k in e1 && k in e2 ==> e1[k] == e2[k])
    ensures Resolved(e1, t) == Resolved(e2, t) && Meaning(e1, t) == Meaning(e2, t)
  {
    if t.Variable? {
      assert CString(RTrim(t.name)) in Names(t);
      OnlyNamesMatter(e1, e2, t.rest);
    }
  }

  // ---------- the scanning loop ----------

  lemma {:induction false} FindInSuffix(s: string, c: char, k: nat, pos: nat)
    requires k <= pos <= |s|
    ensures Find(s[k..], c, pos - k) == if Find(s, c, pos) == NPOS then NPOS else Find(s, c, pos) - k
    decreases |s| - pos
  {
    if pos < |s| && s[pos] != c {
      FindInSuffix(s, c, k, pos + 1);
    }
  }

  lemma {:induction false} RTrimDropsTrailingSpace(s: string, c: char)
    requires IsSpace(c)
    ensures RTrim(s + [c]) == RTrim(s)
  {
    assert (s + [c])[..|s|] == s;
  }

  /** The start search finds the first '$' and looks at the character after it. */
  lemma VarStartIsDollar(s: string, pos: nat)
    ensures FindVarStart(s, pos).0 == Find(s, '$', pos)
    ensures var p := Find(s, '$', pos);
      FindVarStart(s, pos).1 <==> p != NPOS && p + 1 < |s| && s[p + 1] == '{'
  {
    hide Find, FindTag;
  }

  lemma SliceOfSuffix(s: string, pre: nat, a: nat, b: nat)
    requires pre <= a <= b <= |s|
    ensures s[pre..][a - pre..b - pre] == s[a..b]
  {
  }

  /** A variable looks the same from the suffix it lies in. */
  lemma VarInSuffix(s: string, pre: nat, start: nat)
    requires pre <= start < |s| && s[start] == '$'
    ensures s[pre..][start - pre] == '$'
    ensures var f, g := VarAt(s, start), VarAt(s[pre..], start - pre);
      && (f.Open? ==> g == Open(start - pre))
      && (f.Var? ==> g == Var(start - pre, f.braced, f.name, f.next - pre))
  {
    hide Find;
    var braced := start + 1 < |s| && s[start + 1] == '{';
    FindInSuffix(s, if braced then '}' else ' ', pre, start);
    var end := FindVarEnd(s, start, braced);
    if end != NPOS {
      SliceOfSuffix(s, pre, if braced then start + 2 else start + 1, end);
    }
  }

  /** The loop's state: what is resolved, and what is still to be read, make up the whole. */
  ghost predicate Progress(env: Env, s: string, resolved: string, pre: nat, nvar: nat) {
    && pre <= |s|
    && Meaning(env, Parse(s)) == resolved + Meaning(env, Parse(s[pre..]))
    && (Resolved(env, Parse(s)) <==> nvar == 0 && Resolved(env, Parse(s[pre..])))
  }

  /** All is read: the remaining text is copied. */
  ghost predicate Finished(env: Env, s: string, resolved: string, pre: nat, nvar: nat) {
    && pre <= |s|
    && Meaning(env, Parse(s)) == resolved + s[pre..]
    && (Resolved(env, Parse(s)) <==> nvar == 0)
  }

  lemma NoVariableFinishes(env: Env, s: string, resolved: string, pre: nat, nvar: nat)
    requires Progress(env, s, resolved, pre, nvar) && Find(s, '$', pre) == NPOS
    ensures Finished(env, s, resolved, pre, nvar)
  {
    hide Find, RTrim;
    FindInSuffix(s, '$', pre, pre);
    assert Parse(s[pre..]) == Text(s[pre..]);
  }

  lemma OpenFinishes(env: Env, s: string, resolved: string, pre: nat, nvar: nat, start: nat)
    requires Progress(env, s, resolved, pre, nvar) && Find(s, '$', pre) == start && VarAt(s, start).Open?
    ensures Finished(env, s, resolved + s[pre..start], pre, nvar + 1)
  {
    hide Find, VarAt, FindVarEnd;
    var t, i := s[pre..], start - pre;
    FindInSuffix(s, '$', pre, pre);
    VarInSuffix(s, pre, start);
    hide Parse, Meaning, Resolved;
    ParseOfOpen(env, t, i);
    SliceOfSuffix(s, pre, pre, start);
    Appended(resolved, t[..i], t);
  }

  lemma Appended(a: string, b: string, c: string)
    ensures a + (b + c) == (a + b) + c
  {
  }

  lemma ParseOfOpen(env: Env, t: string, i: nat)
    requires i < |t| && Scan(t) == Open(i)
    ensures Meaning(env, Parse(t)) == t[..i] + t && !Resolved(env, Parse(t))
  {
    hide Scan;
    assert t[..i] + t[..i] + t[i..] == t[..i] + t;
  }

  lemma FoundInSuffix(s: string, pre: nat, start: nat)
    requires pre <= start && Find(s, '$', pre) == start && VarAt(s, start).Var?
    ensures var f := VarAt(s, start);
      && pre < f.next <= |s|
      && Scan(s[pre..]) == Var(start - pre, f.braced, f.name, f.next - pre)
      && s[pre..][..start - pre] == s[pre..start] && s[pre..][f.next - pre..] == s[f.next..]
  {
    hide Find, VarAt;
    FindInSuffix(s, '$', pre, pre);
    VarInSuffix(s, pre, start);
  }

  lemma Grouped(a: string, b: string, c: string, d: string)
    ensures a + (b + c + d) == (a + b + c) + d
  {
  }

  lemma ParseOfVariable(env: Env, t: string, f: Found)
    requires f.Var? && Scan(t) == f
    ensures var value := Lookup(env, RTrim(f.name));
      && Meaning(env, Parse(t)) == t[..f.start] + value.GetOr("") + Meaning(env, Parse(t[f.next..]))
      && (Resolved(env, Parse(t)) <==> value.Some? && Resolved(env, Parse(t[f.next..])))
  {
    hide Find, VarAt, RTrim, Lookup;
  }

  lemma VariableProgresses(env: Env, s: string, resolved: string, pre: nat, nvar: nat, start: nat)
    requires Progress(env, s, resolved, pre, nvar) && Find(s, '$', pre) == start && VarAt(s, start).Var?
    ensures var f := VarAt(s, start);
      var value := Lookup(env, RTrim(f.name));
      Progress(env, s, resolved + s[pre..start] + value.GetOr(""), f.next, if value.Some? then nvar else nvar + 1)
  {
    hide Find, RTrim, VarAt, Lookup, Parse, Meaning, Resolved, Scan;
    FoundInSuffix(s, pre, start);
    var f := VarAt(s, start);
    ParseOfVariable(env, s[pre..], Var(start - pre, f.braced, f.name, f.next - pre));
    Grouped(resolved, s[pre..start], Lookup(env, RTrim(f.name)).GetOr(""), Meaning(env, Parse(s[f.next..])));
  }

  lemma SliceOfSlice(s: string, start: nat, last: nat, a: nat, b: nat)
    requires start <= last <= |s| && a <= b <= last - start
    ensures s[start..last][a..b] == s[start + a..start + b]
  {
    var t := s[start..last];
    assert forall i :: 0 <= i < b - a ==> t[a..b][i] == t[a + i] == s[start + a..start + b][i];
  }

  lemma LastOfSlice(s: string, a: nat, b: nat)
    requires a <= b < |s|
    ensures s[a..b + 1] == s[a..b] + [s[b]]
  {
  }

  /** The name cut out of the decorated text; a bare one may carry the space that ends it. */
  method NameOf(s: string, start: nat, end: nat, braced: bool) returns (name: string)
    requires start < |s| && s[start] == '$' && VarAt(s, start).Var?
    requires end == FindVarEnd(s, start, braced) && (braced <==> start + 1 < |s| && s[start + 1] == '{')
    ensures name == RTrim(VarAt(s, start).name)
  {
    hide Find, RTrim;
    var lstart, lend := if braced then 2 else 1, if braced then 1 else 0;
    var last := if end + 1 <= |s| then end + 1 else |s|;
    var variable := s[start..last];
    name := variable[lstart..|variable| - lend];
    SliceOfSlice(s, start, last, lstart, |variable| - lend);
    if !braced && end < |s| {
      LastOfSlice(s, start + 1, end);
      RTrimDropsTrailingSpace(s[start + 1..end], s[end]);
    }
    name := RTrim(name);
  }

  /** The loop over positions replaces the variables of the value's reading, and reports ok exactly when
      every one of them is closed and has a value. */
  method ResolveVars(env: Env, s: string) returns (resolved: string, ok: bool)
    ensures resolved == Resolve(env, s).0 && ok == Resolve(env, s).1
  {
    hide Find, FindTag, FindVarStart, FindVarEnd, VarAt, RTrim, Lookup, Parse, Meaning, Resolved;
    resolved := "";
    var pos: int, pre: nat, nvar: nat := 0, 0, 0;
    var finished := false;
    assert s[0..] == s;
    while !finished
      invariant NPOS <= pos <= |s| && pre <= |s|
      invariant pos != NPOS ==> pre - 1 <= pos <= pre && (pos < pre ==> s[pos] != '$')
      invariant if pos == NPOS || finished then Finished(env, s, resolved, pre, nvar)
                else Progress(env, s, resolved, pre, nvar)
      decreases !finished, if pos == NPOS then 0 else |s| - pos + 1
    {
      var braced := false;
      if pos != NPOS {
        SearchFromPrevious(s, pos, pre);
        VarStartIsDollar(s, pos);
        var found := FindVarStart(s, pos);
        pos, braced := found.0, found.1;
        if pos == NPOS {
          NoVariableFinishes(env, s, resolved, pre, nvar);
        }
      }
      if pos != NPOS {
        nvar := nvar + 1;
        var start := pos;
        ghost var before := resolved;
        resolved := resolved + s[pre..pos];
        EndOfVar(s, pos, braced);
        pos := FindVarEnd(s, pos, braced);
        if pos == NPOS {
          OpenFinishes(env, s, before, pre, nvar - 1, start);
        } else {
          VariableProgresses(env, s, before, pre, nvar - 1, start);
          var name := NameOf(s, start, pos, braced);
          var value := Lookup(env, name);
          if value.Some? {
            resolved := resolved + value.value;
            nvar := nvar - 1;
          }
          pre := pos + if braced then 1 else 0;
        }
      } else {
        finished := true;
      }
    }
    if pre < |s| {
      resolved := resolved + s[pre..];
    }
    ok := nvar == 0;
  }

  lemma EndOfVar(s: string, start: nat, braced: bool)
    requires start < |s| && s[start] == '$' && (braced <==> start + 1 < |s| && s[start + 1] == '{')
    ensures var end, f := FindVarEnd(s, start, braced), VarAt(s, start);
      if end == NPOS then f.Open?
      else f.Var? && start < end && f.next == end + (if braced then 1 else 0) && (braced ==> s[end] == '}')
  {
    hide Find;
  }

  lemma SearchFromPrevious(s: string, pos: nat, pre: nat)
    requires pre - 1 <= pos <= pre <= |s| && (pos < pre ==> s[pos] != '$')
    ensures Find(s, '$', pos) == Find(s, '$', pre)
  {
  }

  // ---------- what resolving does, by the three forms of a value ----------

  /** Text without a '$' comes back unchanged. */
  lemma NoDollarUnchanged(env: Env, s: string)
    requires '$' !in s
    ensures Resolve(env, s) == (s, true)
  {
    ParseReadsSpelling(Text(s));
  }

  /** A tag that is never closed is an error; the text before it appears twice. */
  lemma UnclosedIsError(env: Env, x: string, tag: string)
    requires '$' !in x && NeverCloses(tag)
    ensures Resolve(env, x + tag) == (x + x + tag, false)
  {
    ParseReadsSpelling(Unclosed(x, tag));
  }

  lemma ParseOfFirst(x: string, braced: bool, name: string, rest: string)
    requires '$' !in x && VariableEnds(braced, name, rest)
    ensures Parse(x + VariableText(braced, name) + rest) == Variable(x, braced, name, Parse(rest))
  {
    hide Find, VarAt, VariableEnds, VariableText;
    var s := x + VariableText(braced, name) + rest;
    VarAtOfText(x, braced, name, rest);
    assert s[0..|x|] == x;
    FindIsFirst(s, '$', 0, |x|);
    assert s[..|x|] == x && s[|x| + |VariableText(braced, name)|..] == rest;
  }

  /** A variable is replaced by its value, as it is, or by nothing if it has none, which is an error; the text
      before it stays and the rest is resolved by itself.  Every value is of one of these three forms. */
  lemma VariableIsReplaced(env: Env, x: string, braced: bool, name: string, rest: string)
    requires '$' !in x && '\0' !in name && (name == "" || !IsSpace(name[|name| - 1]))
    requires VariableEnds(braced, name, rest)
    ensures var found, whole := name != "" && name in env, Resolve(env, x + VariableText(braced, name) + rest);
      && whole.0 == x + (if found then env[name] else "") + Resolve(env, rest).0
      && (whole.1 <==> found && Resolve(env, rest).1)
  {
    ParseOfFirst(x, braced, name, rest);
    assert RTrim(name) == name && CString(name) == name;
    hide Parse;
  }

  /** White space before the end of a name, and all from a '\0' on, does not count. */
  lemma NameIsTrimmed(env: Env, x: string, braced: bool, name: string, pad: string, rest: string)
    requires '$' !in x && '\0' !in name && (name == "" || !IsSpace(name[|name| - 1]))
    requires (forall c :: c in pad ==> IsSpace(c)) || (pad != "" && pad[0] == '\0')
    requires VariableEnds(braced, name + pad, rest)
    ensures var found, whole := name != "" && name in env, Resolve(env, x + VariableText(braced, name + pad) + rest);
      && whole.0 == x + (if found then env[name] else "") + Resolve(env, rest).0
      && (whole.1 <==> found && Resolve(env, rest).1)
  {
    ParseOfFirst(x, braced, name + pad, rest);
    NameInPad(name, pad);
    hide Parse;
  }

  lemma {:induction false} NameInPad(name: string, pad: string)
    requires '\0' !in name && (name == "" || !IsSpace(name[|name| - 1]))
    requires (forall c :: c in pad ==> IsSpace(c)) || (pad != "" && pad[0] == '\0')
    ensures CString(RTrim(name + pad)) == name
    decreases |pad|
  {
    if pad == "" {
      assert name + pad == name;
    } else if IsSpace(pad[|pad| - 1]) {
      var less := pad[..|pad| - 1];
      assert (name + pad)[..|name + pad| - 1] == name + less;
      assert pad[0] == '\0' ==> less != "" && less[0] == '\0';
      hide CString;
      NameInPad(name, less);
    } else {
      assert pad[|pad| - 1] in pad && (name + pad)[|name + pad| - 1] == pad[|pad| - 1];
      hide CString;
      CutAtNul(name, pad);
    }
  }

  lemma CutAtNul(name: string, pad: string)
    requires '\0' !in name && pad != "" && pad[0] == '\0'
    ensures CString(name + pad) == name
  {
    hide Find;
    var s := name + pad;
    assert s[0..|name|] == name && s[|name|] == '\0' && s[..|name|] == name;
    FindIsFirst(s, '\0', 0, |name|);
  }

  // ---------- loading a file ----------

  /** setenv: an empty name is refused, and an existing variable stays unless it may be overwritten. */
  function SetEnv(env: Env, name: string, value: string, overwrite: bool): Env {
    var n := CString(name);
    if n == "" || (n in env && !overwrite) then env else env[n := CString(value)]
  }

  /** The assignment a line makes: its name, and the value before expansion. */
  function Assignment(line: string): Option<(string, string)> {
    var p := Find(line, '=', 0);
    if p == NPOS then None else Some((Trim(line[..p]), StripQuotes(Trim(line[p + 1..]))))
  }

  function LoadLine(env: Env, line: string, preserve: bool): Env {
    match Assignment(line)
    case None => env
    case Some((name, raw)) =>
      var (value, ok) := Resolve(env, raw);
      if ok then SetEnv(env, name, value, !preserve) else env
  }

  function LoadAll(env: Env, lines: seq<string>, preserve: bool): Env {
    if lines == [] then env
    else LoadLine(LoadAll(env, lines[..|lines| - 1], preserve), lines[|lines| - 1], preserve)
  }

  lemma LoadNext(env: Env, lines: seq<string>, i: nat, preserve: bool)
    requires i < |lines|
    ensures LoadAll(env, lines[..i + 1], preserve) == LoadLine(LoadAll(env, lines[..i], preserve), lines[i], preserve)
  {
    hide LoadLine;
    assert lines[..i + 1][..i] == lines[..i];
  }

  /** The process environment. */
  class Environment {
    var vars: Env

    /** Lines are read in order, each with the variables set by those before it; lines without '=' and
        lines whose value does not expand are skipped. */
    method DoInit(lines: seq<string>, preserve: bool)
      modifies this
      ensures vars == LoadAll(old(vars), lines, preserve)
    {
      hide Find, Trim, Resolve, Lookup, StripQuotes, SetEnv, LoadAll;
      var i := 0;
      NothingLoaded(vars, preserve);
      assert lines[..0] == [];
      while i < |lines|
        invariant 0 <= i <= |lines|
        invariant vars == LoadAll(old(vars), lines[..i], preserve)
      {
        var line := lines[i];
        LoadNext(old(vars), lines, i, preserve);
        var pos := Find(line, '=', 0);
        if pos != NPOS {
          var name := Trim(line[..pos]);
          var stripped := StripQuotes(Trim(line[pos + 1..]));
          var value, ok := ResolveVars(vars, stripped);
          if ok {
            vars := SetEnv(vars, name, value, !preserve);
          }
        }
        i := i + 1;
      }
      assert lines[..i] == lines;
    }
  }

  function Assigned(line: string): string {
    match Assignment(line)
    case None => ""
    case Some((name, _)) => CString(name)
  }

  /** Loading changes nothing but variables named on some line, removes none, and when existing
      variables are to be preserved keeps all of those. */
  lemma {:induction false} LoadTouchesOnlyAssigned(env: Env, lines: seq<string>, preserve: bool, k: string)
    ensures k in env ==> k in LoadAll(env, lines, preserve)
    ensures k in env && (preserve || forall l :: l in lines ==> Assigned(l) != k) ==>
      LoadAll(env, lines, preserve)[k] == env[k]
    ensures k !in env && (forall l :: l in lines ==> Assigned(l) != k) ==> k !in LoadAll(env, lines, preserve)
  {
    hide Find, Trim, Resolve, CString;
    if lines != [] {
      var n := |lines| - 1;
      LoadTouchesOnlyAssigned(env, lines[..n], preserve, k);
      assert lines[n] in lines && forall l :: l in lines[..n] ==> l in lines;
    }
  }

  /** Line i assigns k a value that expands in the environment the lines before it make.  With no such
      line k keeps its value; else the last one wins, or the first if variables are preserved. */
  ghost predicate Sets(env: Env, lines: seq<string>, preserve: bool, i: nat, k: string)
    requires i < |lines|
  {
    Assignment(lines[i]).Some? && Assigned(lines[i]) == k
    && Resolve(LoadAll(env, lines[..i], preserve), Assignment(lines[i]).value.1).1
  }

  ghost function ValueAt(env: Env, lines: seq<string>, preserve: bool, i: nat): string
    requires i < |lines| && Assignment(lines[i]).Some?
  {
    CString(Resolve(LoadAll(env, lines[..i], preserve), Assignment(lines[i]).value.1).0)
  }

  lemma SetsInPrefix(env: Env, lines: seq<string>, preserve: bool, n: nat, i: nat, k: string)
    requires i < n <= |lines|
    ensures Sets(env, lines[..n], preserve, i, k) <==> Sets(env, lines, preserve, i, k)
    ensures Assignment(lines[i]).Some? ==> ValueAt(env, lines[..n], preserve, i) == ValueAt(env, lines, preserve, i)
  {
    assert lines[..n][..i] == lines[..i];
  }

  lemma SettingLine(env: Env, lines: seq<string>, preserve: bool, k: string)
    requires lines != []
    ensures var n := |lines| - 1;
      var before, after := LoadAll(env, lines[..n], preserve), LoadAll(env, lines, preserve);
      if k != "" && Sets(env, lines, preserve, n, k) && (k !in before || !preserve) then
        k in after && after[k] == ValueAt(env, lines, preserve, n)
      else (k in after <==> k in before) && (k in before ==> after[k] == before[k])
  {
    hide Find, Trim, StripQuotes, Resolve, CString, LoadAll;
    LoadNext(env, lines, |lines| - 1, preserve);
    assert lines[..|lines|] == lines;
  }

  lemma {:induction false} LastAssignmentWins(env: Env, lines: seq<string>, i: nat, k: string)
    requires i < |lines| && k != "" && Sets(env, lines, false, i, k)
    requires forall j :: i < j < |lines| ==> !Sets(env, lines, false, j, k)
    ensures k in LoadAll(env, lines, false) && LoadAll(env, lines, false)[k] == ValueAt(env, lines, false, i)
  {
    hide Sets, LoadAll, ValueAt, Assignment;
    var n := |lines| - 1;
    SettingLine(env, lines, false, k);
    if i < n {
      SetsInPrefix(env, lines, false, n, i, k);
      forall j | i < j < n ensures !Sets(env, lines[..n], false, j, k) {
        SetsInPrefix(env, lines, false, n, j, k);
      }
      SetsIsAssignment(env, lines, false, i, k);
      LastAssignmentWins(env, lines[..n], i, k);
    }
  }

  lemma SetsIsAssignment(env: Env, lines: seq<string>, preserve: bool, i: nat, k: string)
    requires i < |lines| && Sets(env, lines, preserve, i, k)
    ensures Assignment(lines[i]).Some?
  {
  }

  lemma {:induction false} NeverSetIsUnchanged(env: Env, lines: seq<string>, preserve: bool, k: string)
    requires forall j :: 0 <= j < |lines| ==> !Sets(env, lines, preserve, j, k)
    ensures k in LoadAll(env, lines, preserve) <==> k in env
    ensures k in env ==> LoadAll(env, lines, preserve)[k] == env[k]
  {
    if lines == [] {
      NothingLoaded(env, preserve);
    } else {
      hide Sets, LoadAll, ValueAt, Assignment;
      var n := |lines| - 1;
      SettingLine(env, lines, preserve, k);
      forall j | 0 <= j < n ensures !Sets(env, lines[..n], preserve, j, k) {
        SetsInPrefix(env, lines, preserve, n, j, k);
      }
      NeverSetIsUnchanged(env, lines[..n], preserve, k);
    }
  }

  lemma NothingLoaded(env: Env, preserve: bool)
    ensures LoadAll(env, [], preserve) == env
  {
  }

  lemma {:induction false} FirstAssignmentIsKept(env: Env, lines: seq<string>, i: nat, k: string)
    requires i < |lines| && k != "" && k !in env && Sets(env, lines, true, i, k)
    requires forall j :: 0 <= j < i ==> !Sets(env, lines, true, j, k)
    ensures k in LoadAll(env, lines, true) && LoadAll(env, lines, true)[k] == ValueAt(env, lines, true, i)
  {
    hide Sets, LoadAll, ValueAt, Assignment;
    var n := |lines| - 1;
    SettingLine(env, lines, true, k);
    forall j | 0 <= j < i ensures !Sets(env, lines[..n], true, j, k) {
      SetsInPrefix(env, lines, true, n, j, k);
    }
    if i < n {
      SetsInPrefix(env, lines, true, n, i, k);
      SetsIsAssignment(env, lines, true, i, k);
      FirstAssignmentIsKept(env, lines[..n], i, k);
    } else {
      NeverSetIsUnchanged(env, lines[..n], true, k);
    }
  }

  // ---------- what is stored for a line ----------

  predicate Blank(s: string) {
    forall c :: c in s ==> IsSpace(c)
  }

  predicate Trimmed(x: string) {
    x == "" || (!IsSpace(x[0]) && !IsSpace(x[|x| - 1]))
  }

  lemma {:induction false} LTrimCuts(a: string, x: string)
    requires Blank(a)
    ensures LTrim(a + x) == LTrim(x)
  {
    if a != "" {
      assert a[0] in a && (a + x)[1..] == a[1..] + x;
      LTrimCuts(a[1..], x);
    } else {
      assert a + x == x;
    }
  }

  lemma {:induction false} RTrimCuts(x: string, b: string)
    requires Blank(b)
    ensures RTrim(x + b) == RTrim(x)
    decreases |b|
  {
    if b != "" {
      var s := x + b;
      assert b[|b| - 1] in b && s[..|s| - 1] == x + b[..|b| - 1];
      RTrimCuts(x, b[..|b| - 1]);
    } else {
      assert x + b == x;
    }
  }

  /** Trimming takes off all white space around, and nothing else. */
  lemma TrimCuts(a: string, x: string, b: string)
    requires Blank(a) && Trimmed(x) && Blank(b)
    ensures Trim(a + x + b) == x
  {
    if x != "" {
      assert a + x + b == a + (x + b);
      LTrimCuts(a, x + b);
      RTrimCuts(x, b);
    } else {
      assert a + x + b == (a + b) + "";
      assert Blank(a + b);
      LTrimCuts(a + b, "");
    }
  }

  /** Name and value of a line with white space around both. */
  lemma LineIsTrimmed(a: string, name: string, b: string, c: string, value: string, d: string)
    requires Blank(a) && Blank(b) && Blank(c) && Blank(d) && Trimmed(name) && Trimmed(value) && '=' !in name
    ensures Assignment((a + name + b) + "=" + (c + value + d)) == Some((name, StripQuotes(value)))
  {
    hide *;
    NoEquals(a, name, b);
    LineIsSplit(a + name + b, c + value + d);
    TrimCuts(a, name, b);
    TrimCuts(c, value, d);
  }

  lemma NoEquals(a: string, name: string, b: string)
    requires Blank(a) && Blank(b) && '=' !in name
    ensures '=' !in a + name + b
  {
  }

  lemma LineIsSplit(left: string, right: string)
    requires '=' !in left
    ensures Assignment(left + "=" + right) == Some((Trim(left), StripQuotes(Trim(right))))
  {
    hide Find, Trim, StripQuotes;
    var line := left + "=" + right;
    assert line[0..|left|] == left && line[|left|] == '=' && line[|left| + 1..] == right;
    FindIsFirst(line, '=', 0, |left|);
  }

  /** A name or value that can be written on a line as it is. */
  predicate Plain(x: string) {
    '$' !in x && '\0' !in x
  }

  predicate Quoted(s: string) {
    |s| >= 2 && s[0] == s[|s| - 1] && (s[0] == '"' || s[0] == '\'')
  }

  /** The line's assignment takes place as it stands. */
  lemma StoresPlain(env: Env, line: string, name: string, value: string)
    requires Assignment(line) == Some((name, value)) && name != "" && '\0' !in name && Plain(value)
    ensures LoadLine(env, line, false) == env[name := value]
  {
    NoDollarUnchanged(env, value);
    assert CString(name) == name && CString(value) == value;
    hide Find, Assignment, Resolve, CString;
  }

  lemma StripsQuotes(value: string)
    ensures !Quoted(value) ==> StripQuotes(value) == value
    ensures Quoted(value) ==> StripQuotes(value) == value[1..|value| - 1]
  {
  }

  /** An unquoted value is stored without the white space around it. */
  lemma UnquotedValueIsTrimmed(env: Env, a: string, name: string, b: string, c: string, value: string, d: string)
    requires Blank(a) && Blank(b) && Blank(c) && Blank(d) && Trimmed(name) && Trimmed(value)
    requires name != "" && '=' !in name && '\0' !in name && Plain(value) && !Quoted(value)
    ensures LoadLine(env, (a + name + b) + "=" + (c + value + d), false) == env[name := value]
  {
    hide *;
    StripsQuotes(value);
    LineIsTrimmed(a, name, b, c, value, d);
    StoresPlain(env, (a + name + b) + "=" + (c + value + d), name, value);
  }

  /** A value written between quotes is stored exactly, spaces and inner quotes included. */
  lemma QuotedValueIsExact(env: Env, a: string, name: string, b: string, c: string, quote: char, value: string,
                           d: string)
    requires Blank(a) && Blank(b) && Blank(c) && Blank(d) && Trimmed(name)
    requires name != "" && '=' !in name && '\0' !in name && (quote == '"' || quote == '\'') && Plain(value)
    ensures LoadLine(env, (a + name + b) + "=" + (c + ([quote] + value + [quote]) + d), false) == env[name := value]
  {
    hide *;
    var quoted := [quote] + value + [quote];
    QuotedIsTrimmed(quote, value);
    StripsQuotes(quoted);
    LineIsTrimmed(a, name, b, c, quoted, d);
    StoresPlain(env, (a + name + b) + "=" + (c + quoted + d), name, value);
  }

  lemma QuotedIsTrimmed(quote: char, value: string)
    requires quote == '"' || quote == '\''
    ensures var quoted := [quote] + value + [quote];
      Quoted(quoted) && Trimmed(quoted) && quoted[1..|quoted| - 1] == value
  {
  }

  /** And a variable in a value is stored replaced, if it has a value before the line; else the line is
      skipped. */
  lemma VariableIsStored(env: Env, name: string, x: string, other: string)
    requires name != "" && Trimmed(name) && '=' !in name && '\0' !in name
    requires Plain(x) && (x != "" ==> !IsSpace(x[0]) && x[0] != '"' && x[0] != '\'')
    requires other != "" && '}' !in other && '\0' !in other && !IsSpace(other[|other| - 1])
    ensures LoadLine(env, name + "=" + (x + VariableText(true, other)), false) ==
            if other in env then env[name := CString(x + env[other])] else env
  {
    var value := x + VariableText(true, other);
    hide Find, Assignment, Resolve, StripQuotes, Trim, Trimmed, LTrim, RTrim, VariableText, IsSpace;
    BracedIsBare(x, other);
    TrimIsSame(name);
    TrimIsSame(value);
    LineIsSplit(name, value);
    BracedResolves(env, x, other);
    assert CString(name) == name;
    hide CString, Lookup;
  }

  lemma TrimIsSame(x: string)
    requires Trimmed(x)
    ensures Trim(x) == x
  {
    TrimCuts("", x, "");
    assert "" + x + "" == x;
  }

  lemma BracedResolves(env: Env, x: string, other: string)
    requires Plain(x) && other != "" && '}' !in other && '\0' !in other && !IsSpace(other[|other| - 1])
    ensures var whole := Resolve(env, x + VariableText(true, other));
      whole.0 == (if other in env then x + env[other] else x) && (whole.1 <==> other in env)
  {
    VariableIsReplaced(env, x, true, other, "");
    NoDollarUnchanged(env, "");
    hide Resolve, VariableText;
    assert x + VariableText(true, other) + "" == x + VariableText(true, other);
    assert x + "" + "" == x;
    assert other in env ==> x + env[other] + "" == x + env[other];
  }

  lemma BracedIsBare(x: string, other: string)
    requires x != "" ==> !IsSpace(x[0]) && x[0] != '"' && x[0] != '\''
    ensures var value := x + VariableText(true, other); Trimmed(value) && StripQuotes(value) == value
  {
    var value := x + VariableText(true, other);
    assert value[|value| - 1] == '}' && (x == "" ==> value[0] == '$') && (x != "" ==> value[0] == x[0]);
  }
}
