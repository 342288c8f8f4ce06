/** Environment references in backend URLs (internal/config/config.go:380-410).  The environment is a map; a variable
    that is set to "" counts as unset. */
module ExpandEnv {
  import opened Fleet

  type Environment = map<string, string>

  datatype Failure = Unterminated | Malformed(name: string) | Unset(name: string)

  predicate Letter(c: char) {
    'A' <= c <= 'Z' || 'a' <= c <= 'z' || c == '_'
  }

  predicate ValidName(name: string) {
    name != "" && Letter(name[0]) && forall c | c in name :: Letter(c) || '0' <= c <= '9'
  }

  predicate Bound(env: Environment, name: string) {
    ValidName(name) && name in env && env[name] != ""
  }

  predicate Opens(s: string) {
    |s| >= 2 && s[0] == '$' && s[1] == '{'
  }

  predicate HasReference(s: string) {
    exists i | 0 <= i < |s| :: Opens(s[i..])
  }

  /** The index of the first c in s, or |s|. */
  function IndexOf(s: string, c: char): (i: nat)
    ensures i <= |s| && c !in s[..i] && (i < |s| ==> s[i] == c)
  {
    if s == "" || s[0] == c then 0
    else
      var i := IndexOf(s[1..], c) + 1;
      assert s[..i] == [s[0]] + s[1..][..i - 1];
      i
  }

  function Prepend(s: string, r: Result<string, Failure>): Result<string, Failure> {
    if r.Ok? then Ok(s + r.value) else r
  }

  /** Left to right; what is substituted is not looked at again. */
  function Expand(env: Environment, raw: string): Result<string, Failure>
    decreases |raw|
  {
    if raw == "" then Ok("")
    else if !Opens(raw) then Prepend(raw[..1], Expand(env, raw[1..]))
    else
      var rest := raw[2..];
      var end := IndexOf(rest, '}');
      if end == |rest| then Err(Unterminated)
      else if !ValidName(rest[..end]) then Err(Malformed(rest[..end]))
      else if !Bound(env, rest[..end]) then Err(Unset(rest[..end]))
      else Prepend(env[rest[..end]], Expand(env, rest[end + 1..]))
  }

  lemma {:induction false} NoReference(env: Environment, raw: string)
    requires !HasReference(raw)
    ensures Expand(env, raw) == Ok(raw)
    decreases |raw|
  {
    if raw != "" {
      assert raw[0..] == raw && !Opens(raw[0..]);
      forall i | 0 <= i < |raw[1..]|
        ensures !Opens(raw[1..][i..])
      {
        assert raw[1..][i..] == raw[i + 1..];
      }
      NoReference(env, raw[1..]);
      assert raw == raw[..1] + raw[1..];
    }
  }

  lemma PrependTwice(a: string, b: string, r: Result<string, Failure>)
    ensures Prepend(a, Prepend(b, r)) == Prepend(a + b, r)
  {
    if r.Ok? { assert a + (b + r.value) == a + b + r.value; }
  }

  lemma PrependNothing(r: Result<string, Failure>)
    ensures Prepend("", r) == r
  {
    if r.Ok? { assert "" + r.value == r.value; }
  }

  /** The reference that opens at i: its value and where the text goes on, or why it cannot be resolved. */
  method Reference(env: Environment, raw: string, i: nat) returns (value: Result<string, Failure>, next: nat)
    requires i <= |raw| && Opens(raw[i..])
    ensures value.Err? ==> Expand(env, raw[i..]) == Err(value.error)
    ensures value.Ok? ==> i < next <= |raw| && Expand(env, raw[i..]) == Prepend(value.value, Expand(env, raw[next..]))
  {
    var rest := raw[i + 2..];
    assert rest == raw[i..][2..];
    var end := IndexOf(rest, '}');
    if end == |rest| { return Err(Unterminated), i; }
    var name := rest[..end];
    if !ValidName(name) { return Err(Malformed(name)), i; }
    if name !in env || env[name] == "" { return Err(Unset(name)), i; }
    next := i + 2 + end + 1;
    assert rest[end + 1..] == raw[next..];
    return Ok(env[name]), next;
  }

  lemma OneChar(env: Environment, raw: string, i: nat)
    requires i < |raw| && !Opens(raw[i..])
    ensures Expand(env, raw[i..]) == Prepend([raw[i]], Expand(env, raw[i + 1..]))
  {
    assert raw[i..][..1] == [raw[i]] && raw[i..][1..] == raw[i + 1..];
  }

  /** The source's index loop over a builder. */
  method ExpandEnv(env: Environment, raw: string) returns (r: Result<string, Failure>)
    ensures r == Expand(env, raw)
  {
    if !HasReference(raw) {
      NoReference(env, raw);
      return Ok(raw);
    }
    var b := "";
    var i := 0;
    assert raw[0..] == raw;
    PrependNothing(Expand(env, raw));
    while i < |raw|
      invariant 0 <= i <= |raw|
      invariant Expand(env, raw) == Prepend(b, Expand(env, raw[i..]))
      decreases |raw| - i
    {
      if raw[i] == '$' && i + 1 < |raw| && raw[i + 1] == '{' {
        var value, next := Reference(env, raw, i);
        if value.Err? { return value; }
        PrependTwice(b, value.value, Expand(env, raw[next..]));
        b := b + value.value;
        i := next;
      } else {
        OneChar(env, raw, i);
        PrependTwice(b, [raw[i]], Expand(env, raw[i + 1..]));
        b := b + [raw[i]];
        i := i + 1;
      }
    }
    assert raw[i..] == "" && b + "" == b;
    return Ok(b);
  }

  // ---------- templates ----------

  /** Literal text alternating with references. */
  datatype Template = Tail(text: string) | Hole(text: string, name: string, rest: Template)

  function Render(t: Template): string {
    match t
    case Tail(text) => text
    case Hole(text, name, rest) => text + ("${" + name + "}" + Render(rest))
  }

  function Fill(env: Environment, t: Template): string
    requires AllBound(env, t)
  {
    match t
    case Tail(text) => text
    case Hole(text, name, rest) => text + (env[name] + Fill(env, rest))
  }

  predicate AllBound(env: Environment, t: Template) {
    t.Hole? ==> Bound(env, t.name) && AllBound(env, t.rest)
  }

  predicate Literal(t: Template) {
    !HasReference(t.text) && (t.Hole? ==> Literal(t.rest))
  }

  lemma {:induction false} IndexOfFirst(s: string, c: char, k: nat)
    requires k < |s| && s[k] == c && c !in s[..k]
    ensures IndexOf(s, c) == k
  {
    if k > 0 {
      assert s[0] == s[..k][0] && s[..k][1..] == s[1..][..k - 1];
      IndexOfFirst(s[1..], c, k - 1);
    }
  }

  lemma ExpandReference(env: Environment, name: string, rest: string)
    requires Bound(env, name)
    ensures Expand(env, "${" + name + "}" + rest) == Prepend(env[name], Expand(env, rest))
  {
    var raw := "${" + name + "}" + rest;
    assert raw[2..] == name + "}" + rest;
    assert (name + "}" + rest)[..|name|] == name;
    assert '}' !in name && (name + "}" + rest)[|name|] == '}';
    IndexOfFirst(name + "}" + rest, '}', |name|);
    assert (name + "}" + rest)[|name| + 1..] == rest;
  }

  /** Literal text passes through, whatever reference follows it; a dollar at its end does not open one. */
  lemma {:induction false} ExpandLiteral(env: Environment, text: string, next: string)
    requires !HasReference(text) && (next == "" || Opens(next))
    ensures Expand(env, text + next) == Prepend(text, Expand(env, next))
    decreases |text|
  {
    if text == "" {
      assert text + next == next;
      PrependNothing(Expand(env, next));
    } else {
      var raw := text + next;
      assert text[0..] == text && !Opens(text[0..]);
      assert raw[1..] == text[1..] + next && raw[..1] == text[..1];
      forall i | 0 <= i < |text[1..]|
        ensures !Opens(text[1..][i..])
      {
        assert text[1..][i..] == text[i + 1..];
      }
      ExpandLiteral(env, text[1..], next);
      PrependTwice(text[..1], text[1..], Expand(env, next));
      assert text == text[..1] + text[1..];
    }
  }

  /** Expanding a rendered template fills it in: literals and values concatenated, values taken as they are. */
  lemma {:induction false} ExpandRender(env: Environment, t: Template)
    requires Literal(t) && AllBound(env, t)
    ensures Expand(env, Render(t)) == Ok(Fill(env, t))
  {
    match t
    case Tail(text) =>
      NoReference(env, text);
    case Hole(text, name, rest) =>
      var next := "${" + name + "}" + Render(rest);
      assert Opens(next);
      ExpandLiteral(env, text, next);
      ExpandReference(env, name, Render(rest));
      ExpandRender(env, rest);
  }

  // ---------- the converse ----------

  /** One more literal character in front. */
  function Push(c: char, t: Template): Template {
    t.(text := [c] + t.text)
  }

  function Parse(env: Environment, raw: string): (t: Template)
    requires Expand(env, raw).Ok?
    decreases |raw|
  {
    if raw == "" then Tail("")
    else if !Opens(raw) then Push(raw[0], Parse(env, raw[1..]))
    else
      var rest := raw[2..];
      var end := IndexOf(rest, '}');
      Hole("", rest[..end], Parse(env, rest[end + 1..]))
  }

  lemma PushLiteral(c: char, t: Template)
    requires Literal(t) && !Opens([c] + Render(t))
    ensures Literal(Push(c, t)) && Render(Push(c, t)) == [c] + Render(t)
  {
    var text := [c] + t.text;
    forall i | 0 <= i < |text|
      ensures !Opens(text[i..])
    {
      if i > 0 {
        assert text[i..] == t.text[i - 1..];
      } else {
        assert |t.text| > 0 ==> Render(t)[0] == t.text[0];
      }
    }
    if t.Hole? {
      var next := "${" + t.name + "}" + Render(t.rest);
      assert [c] + (t.text + next) == text + next;
    }
  }

  lemma PushFill(env: Environment, c: char, t: Template)
    requires AllBound(env, t)
    ensures AllBound(env, Push(c, t)) && Fill(env, Push(c, t)) == [c] + Fill(env, t)
  {
    if t.Hole? {
      var next := env[t.name] + Fill(env, t.rest);
      assert [c] + (t.text + next) == [c] + t.text + next;
    }
  }

  predicate Explains(env: Environment, t: Template, raw: string, value: string) {
    Literal(t) && AllBound(env, t) && Render(t) == raw && Fill(env, t) == value
  }

  lemma PushExplains(env: Environment, c: char, t: Template, raw: string, value: string)
    requires Explains(env, t, raw, value) && !Opens([c] + raw)
    ensures Explains(env, Push(c, t), [c] + raw, [c] + value)
  {
    PushLiteral(c, t);
    PushFill(env, c, t);
  }

  lemma HoleExplains(env: Environment, name: string, t: Template, raw: string, value: string)
    requires Explains(env, t, raw, value) && Bound(env, name)
    ensures Explains(env, Hole("", name, t), "${" + name + "}" + raw, env[name] + value)
  {
    assert "" + ("${" + name + "}" + raw) == "${" + name + "}" + raw;
    assert "" + (env[name] + value) == env[name] + value;
  }

  /** A string that opens a reference and closes it, cut into name and remainder. */
  lemma Cut(raw: string, end: nat)
    requires Opens(raw) && 2 + end < |raw| && raw[2 + end] == '}'
    ensures raw == "${" + raw[2..][..end] + "}" + raw[2..][end + 1..]
  {
    var rest := raw[2..];
    assert raw == "${" + rest;
    assert rest == rest[..end] + "}" + rest[end + 1..];
    assert "${" + (rest[..end] + "}" + rest[end + 1..]) == "${" + rest[..end] + "}" + rest[end + 1..];
  }

  lemma ParseChar(env: Environment, raw: string)
    requires raw != "" && !Opens(raw) && Expand(env, raw).Ok?
    requires Explains(env, Parse(env, raw[1..]), raw[1..], Expand(env, raw[1..]).value)
    ensures Explains(env, Parse(env, raw), raw, Expand(env, raw).value)
  {
    var next := raw[1..];
    assert raw == [raw[0]] + next && raw[..1] == [raw[0]];
    PushExplains(env, raw[0], Parse(env, next), next, Expand(env, next).value);
  }

  lemma {:induction false} ParseExplains(env: Environment, raw: string)
    requires Expand(env, raw).Ok?
    ensures Explains(env, Parse(env, raw), raw, Expand(env, raw).value)
    decreases |raw|
  {
    if raw == "" {
    } else if !Opens(raw) {
      ParseExplains(env, raw[1..]);
      ParseChar(env, raw);
    } else {
      var rest := raw[2..];
      var end := IndexOf(rest, '}');
      var name, next := rest[..end], rest[end + 1..];
      Cut(raw, end);
      ParseExplains(env, next);
      HoleExplains(env, name, Parse(env, next), next, Expand(env, next).value);
    }
  }

  /** Expansion succeeds exactly on rendered templates whose variables are set, and yields their filling. */
  lemma ExpandExactly(env: Environment, raw: string, value: string)
    ensures Expand(env, raw) == Ok(value) <==> exists t :: Explains(env, t, raw, value)
  {
    if Expand(env, raw) == Ok(value) { ParseExplains(env, raw); }
    forall t | Explains(env, t, raw, value)
      ensures Expand(env, raw) == Ok(value)
    {
      ExpandRender(env, t);
    }
  }

  // ---------- the three errors ----------

  predicate Refers(s: string, name: string) {
    '}' !in name && "${" + name + "}" <= s
  }

  /** s opens a reference that cannot be resolved: it is never closed, its name is not a variable name, or the variable is not
      set or empty. */
  predicate Stuck(env: Environment, s: string, e: Failure) {
    match e
    case Unterminated => Opens(s) && '}' !in s[2..]
    case Malformed(name) => Refers(s, name) && !ValidName(name)
    case Unset(name) => Refers(s, name) && ValidName(name) && (name in env ==> env[name] == "")
  }

  lemma ReferenceName(s: string, name: string)
    requires Refers(s, name)
    ensures Opens(s) && IndexOf(s[2..], '}') == |name| && |name| < |s[2..]| && s[2..][..|name|] == name
  {
    var head := "${" + name + "}";
    assert head[0] == '$' && head[1] == '{' && head[2..] == name + "}";
    assert s[2..][..|name| + 1] == head[2..];
    assert s[2..][..|name| + 1][..|name|] == name && s[2..][|name|] == head[2..][|name|] == '}';
    IndexOfFirst(s[2..], '}', |name|);
  }

  lemma StuckFails(env: Environment, s: string, e: Failure)
    requires Stuck(env, s, e)
    ensures Opens(s) && Expand(env, s) == Err(e)
  {
    if e.Unterminated? {
      assert IndexOf(s[2..], '}') == |s[2..]|;
    } else {
      ReferenceName(s, e.name);
    }
  }

  /** What expands by itself expands the same in front of a dollar sign. */
  lemma {:induction false} ExpandsInFront(env: Environment, front: string, rest: string)
    requires Expand(env, front).Ok? && (rest == "" || rest[0] == '$')
    ensures Expand(env, front + rest) == Prepend(Expand(env, front).value, Expand(env, rest))
    decreases |front|
  {
    var raw := front + rest;
    if front == "" {
      assert raw == rest;
      PrependNothing(Expand(env, rest));
    } else if !Opens(front) {
      assert raw[1..] == front[1..] + rest && raw[..1] == front[..1] && !Opens(raw);
      ExpandsInFront(env, front[1..], rest);
      PrependTwice(front[..1], Expand(env, front[1..]).value, Expand(env, rest));
    } else {
      var end := IndexOf(front[2..], '}');
      var name, next := front[2..][..end], front[2..][end + 1..];
      Cut(front, end);
      assert raw == "${" + name + "}" + (next + rest);
      ExpandReference(env, name, next + rest);
      ExpandsInFront(env, next, rest);
      PrependTwice(env[name], Expand(env, next).value, Expand(env, rest));
    }
  }

  lemma StuckAtOpening(env: Environment, raw: string)
    requires Opens(raw) && Expand(env, raw).Err?
    requires var end := IndexOf(raw[2..], '}'); end == |raw[2..]| || !Bound(env, raw[2..][..end])
    ensures Stuck(env, raw, Expand(env, raw).error)
  {
    var end := IndexOf(raw[2..], '}');
    if end < |raw[2..]| { Cut(raw, end); }
  }

  predicate StopsHere(env: Environment, raw: string, k: nat) {
    k <= |raw| && Expand(env, raw).Err? && Expand(env, raw[..k]).Ok? && Stuck(env, raw[k..], Expand(env, raw).error)
  }

  lemma SliceInFront(head: string, next: string, k: nat)
    requires k <= |next|
    ensures (head + next)[..|head| + k] == head + next[..k] && (head + next)[|head| + k..] == next[k..]
  {
  }

  /** What is stuck stays stuck behind text that expands by itself. */
  lemma StopsBehind(env: Environment, head: string, value: string, next: string, k: nat)
    requires StopsHere(env, next, k)
    requires Expand(env, head + next) == Prepend(value, Expand(env, next))
    requires Expand(env, head + next[..k]) == Prepend(value, Expand(env, next[..k]))
    ensures StopsHere(env, head + next, |head| + k)
  {
    SliceInFront(head, next, k);
  }

  lemma StopsAtOpening(env: Environment, raw: string)
    requires Opens(raw) && Expand(env, raw).Err?
    requires var end := IndexOf(raw[2..], '}'); end == |raw[2..]| || !Bound(env, raw[2..][..end])
    ensures StopsHere(env, raw, 0)
  {
    StuckAtOpening(env, raw);
    assert raw[0..] == raw && raw[..0] == "";
  }

  /** head expands to value in front of every front of next. */
  ghost predicate ExpandsTo(env: Environment, head: string, value: string, next: string) {
    head != "" && forall k :: 0 <= k <= |next| ==> Expand(env, head + next[..k]) == Prepend(value, Expand(env, next[..k]))
  }

  lemma CharInFront(env: Environment, raw: string)
    requires raw != "" && !Opens(raw)
    ensures raw == raw[..1] + raw[1..] && ExpandsTo(env, raw[..1], raw[..1], raw[1..])
  {
    var head, next := raw[..1], raw[1..];
    forall k | 0 <= k <= |next|
      ensures Expand(env, head + next[..k]) == Prepend(head, Expand(env, next[..k]))
    {
      var front := head + next[..k];
      assert !Opens(front) && front[..1] == head && front[1..] == next[..k];
    }
  }

  lemma ReferenceInFront(env: Environment, raw: string) returns (head: string, next: string, value: string)
    requires Opens(raw)
    requires var end := IndexOf(raw[2..], '}'); end < |raw[2..]| && Bound(env, raw[2..][..end])
    ensures raw == head + next && ExpandsTo(env, head, value, next)
  {
    var end := IndexOf(raw[2..], '}');
    var name := raw[2..][..end];
    Cut(raw, end);
    head, next, value := "${" + name + "}", raw[2..][end + 1..], env[name];
    forall k | 0 <= k <= |next|
      ensures Expand(env, head + next[..k]) == Prepend(value, Expand(env, next[..k]))
    {
      ExpandReference(env, name, next[..k]);
    }
  }

  /** Text that does not expand is stuck where it stands, or starts with something that expands. */
  lemma StuckOrNot(env: Environment, raw: string) returns (head: string, next: string, value: string)
    requires Expand(env, raw).Err? && !StopsHere(env, raw, 0)
    ensures raw == head + next && ExpandsTo(env, head, value, next)
  {
    if !Opens(raw) {
      CharInFront(env, raw);
      return raw[..1], raw[1..], raw[..1];
    }
    var end := IndexOf(raw[2..], '}');
    if end == |raw[2..]| || !Bound(env, raw[2..][..end]) { StopsAtOpening(env, raw); }
    head, next, value := ReferenceInFront(env, raw);
  }

  /** Where expansion stops: what lies before expands by itself. */
  lemma {:induction false} StopsAt(env: Environment, raw: string) returns (k: nat)
    requires Expand(env, raw).Err?
    ensures StopsHere(env, raw, k)
    decreases |raw|
  {
    if StopsHere(env, raw, 0) { return 0; }
    var head, next, value := StuckOrNot(env, raw);
    assert next[..|next|] == next;
    k := StopsAt(env, next);
    StopsBehind(env, head, value, next, k);
    k := |head| + k;
  }

  lemma StuckAfter(env: Environment, front: string, rest: string, e: Failure)
    requires Expand(env, front).Ok? && Stuck(env, rest, e)
    ensures Expand(env, front + rest) == Err(e)
  {
    StuckFails(env, rest, e);
    ExpandsInFront(env, front, rest);
  }

  /** Expansion fails exactly when some front of the text expands by itself and what follows opens a reference that cannot be
      resolved; the error says why it cannot. */
  lemma FailsExactly(env: Environment, raw: string, e: Failure)
    ensures Expand(env, raw) == Err(e) <==>
              exists front, rest :: raw == front + rest && Expand(env, front).Ok? && Stuck(env, rest, e)
  {
    if Expand(env, raw) == Err(e) {
      var k := StopsAt(env, raw);
      assert raw == raw[..k] + raw[k..];
    }
    forall front, rest | raw == front + rest && Expand(env, front).Ok? && Stuck(env, rest, e)
      ensures Expand(env, raw) == Err(e)
    {
      StuckAfter(env, front, rest, e);
    }
  }
}
