/**
 * Template substitution, shared by both drafts: `findMatches` collects the spans the
 * regular expression /`.*?`/g matches, left to right, and `resolveMapping` replaces each
 * of them in turn, at its first remaining occurrence, with the named variable's value.
 */
module Templates {
  import opened Common
  import opened JsText

  /** A character the `.` of /`.*?`/ may stand for between the two backticks. */
  predicate Plain(c: char) {
    c != '`' && !IsLineTerminator(c)
  }

  /** Where a lazy scan for the closing backtick stops. */
  datatype Stop = Closed(at: nat) | Broken(at: nat) | Open

  /** Scans `t` for the closing backtick; a line terminator before it breaks the span. */
  function Scan(t: string): (r: Stop)
    ensures !r.Open? ==> r.at < |t|
  {
    if |t| == 0 then Open
    else if t[0] == '`' then Closed(0)
    else if IsLineTerminator(t[0]) then Broken(0)
    else match Scan(t[1..])
      case Closed(k) => Closed(k + 1)
      case Broken(k) => Broken(k + 1)
      case Open => Open
  }

  /** The scan stops at the first character that is not plain: a backtick closes the span, a line terminator breaks it. */
  lemma {:induction false} ScanResult(t: string)
    ensures Scan(t).Closed? ==> t[Scan(t).at] == '`'
    ensures Scan(t).Broken? ==> IsLineTerminator(t[Scan(t).at])
    ensures !Scan(t).Open? ==> forall j :: 0 <= j < Scan(t).at ==> Plain(t[j])
    ensures Scan(t).Open? ==> forall j :: 0 <= j < |t| ==> Plain(t[j])
  {
    if |t| > 0 && Plain(t[0]) {
      ScanResult(t[1..]);
      assert forall j :: 1 <= j < |t| ==> t[j] == t[1..][j - 1];
    }
  }

  /** Conversely, the first character that is not plain is where the scan stops. */
  lemma {:induction false} ScanStopsAt(t: string, k: nat)
    requires k < |t| && !Plain(t[k])
    requires forall j :: 0 <= j < k ==> Plain(t[j])
    ensures Scan(t) == if t[k] == '`' then Closed(k) else Broken(k)
  {
    if k > 0 {
      ScanStopsAt(t[1..], k - 1);
    }
  }

  /** Text appended after the point where a scan stopped does not change it. */
  lemma {:induction false} ScanExtend(t: string, u: string)
    requires !Scan(t).Open?
    ensures Scan(t + u) == Scan(t)
  {
    ScanResult(t);
    ScanStopsAt(t + u, Scan(t).at);
  }

  /** The text of one placeholder: two backticks around plain characters. */
  predicate IsSpan(m: string) {
    |m| >= 2 && m[0] == '`' && m[|m| - 1] == '`' && forall j :: 1 <= j < |m| - 1 ==> Plain(m[j])
  }

  /** The length of the placeholder `s` begins with, if the regular expression matches at index 0. */
  function SpanAt(s: string): (r: Option<nat>)
    ensures r.Some? ==> 2 <= r.value <= |s|
  {
    if |s| > 0 && s[0] == '`' && Scan(s[1..]).Closed? then Some(Scan(s[1..]).at + 2) else None
  }

  /** The successive matches of /`.*?`/g in `s`. */
  function Spans(s: string): seq<string> {
    if |s| == 0 then []
    else match SpanAt(s)
      case Some(e) => [s[..e]] + Spans(s[e..])
      case None => Spans(s[1..])
  }

  /** Every match is the text of one placeholder. */
  lemma {:induction false} SpansAreSpans(s: string)
    ensures forall k :: 0 <= k < |Spans(s)| ==> IsSpan(Spans(s)[k])
    decreases |s|
  {
    if |s| > 0 {
      match SpanAt(s)
      case Some(e) =>
        SpanAtIsSpan(s);
        SpansAreSpans(s[e..]);
      case None =>
        SpansAreSpans(s[1..]);
    }
  }

  /** `regex.exec(s)` with `regex.lastIndex == from`: the first match starting at or after `from`. */
  function Exec(s: string, from: nat): (r: Option<(nat, nat)>)
    requires from <= |s|
    ensures r.Some? ==> from <= r.value.0 < r.value.1 <= |s|
    decreases |s| - from
  {
    if from == |s| then None
    else match SpanAt(s[from..])
      case Some(e) => Some((from, from + e))
      case None => Exec(s, from + 1)
  }

  /** One step of `exec` takes the next element of `Spans`. */
  lemma {:induction false} ExecSpans(s: string, from: nat)
    requires from <= |s|
    ensures Exec(s, from).None? ==> Spans(s[from..]) == []
    ensures Exec(s, from).Some? ==>
      Spans(s[from..]) == [s[Exec(s, from).value.0..Exec(s, from).value.1]] + Spans(s[Exec(s, from).value.1..])
    decreases |s| - from
  {
    if from < |s| {
      var t := s[from..];
      var sp := SpanAt(t);
      if sp.Some? {
        var e := sp.value;
        assert Exec(s, from) == Some((from, from + e));
        assert Spans(t) == [t[..e]] + Spans(t[e..]);
        assert t[..e] == s[from..from + e];
        assert t[e..] == s[from + e..];
      } else {
        assert Exec(s, from) == Exec(s, from + 1);
        assert Spans(t) == Spans(t[1..]);
        assert t[1..] == s[from + 1..];
        ExecSpans(s, from + 1);
      }
    }
  }

  /** `findMatches(string, /`.*?`/g)`: calls `exec` until it finds no further match. */
  method FindMatches(s: string) returns (matches: seq<string>)
    ensures matches == Spans(s)
    ensures forall k :: 0 <= k < |matches| ==> IsSpan(matches[k])
  {
    matches := [];
    var lastIndex: nat := 0;
    var found := Exec(s, lastIndex);
    while found.Some?
      invariant lastIndex <= |s|
      invariant found == Exec(s, lastIndex)
      invariant matches + Spans(s[lastIndex..]) == Spans(s)
      decreases |s| - lastIndex
    {
      ExecSpans(s, lastIndex);
      var (start, end) := found.value;
      matches := matches + [s[start..end]];
      lastIndex := end;
      found := Exec(s, lastIndex);
    }
    ExecSpans(s, lastIndex);
    SpansAreSpans(s);
  }

  /**
   * `match.substring(1, match.length - 1)`: the variable name inside a placeholder. Every
   * match is at least two characters long, so the second branch is never taken on a match.
   */
  function NameOf(m: string): string {
    if |m| >= 2 then m[1..|m| - 1] else []
  }

  /** `trackerVariables[name]` as a replacement text: a name without a value reads as "undefined". */
  function Lookup(vars: map<string, string>, name: string): string {
    if name in vars then vars[name] else "undefined"
  }

  /** The `forEach` of `resolveMapping`: each placeholder in turn replaces its first occurrence in the current text. */
  function ReplaceEach(t: string, ms: seq<string>, vars: map<string, string>): string
    decreases |ms|
  {
    if |ms| == 0 then t
    else ReplaceEach(ReplaceFirst(t, ms[0], Lookup(vars, NameOf(ms[0]))), ms[1..], vars)
  }

  /** What `resolveMapping(mapping, trackerVariables)` returns. */
  function Resolved(mapping: string, vars: map<string, string>): string {
    ReplaceEach(mapping, Spans(mapping), vars)
  }

  /** `resolveMapping`: find the placeholders, then reassign `mapping` once per placeholder. */
  method ResolveMapping(mapping: string, vars: map<string, string>) returns (r: string)
    ensures r == Resolved(mapping, vars)
  {
    var matches := FindMatches(mapping);
    r := mapping;
    for i := 0 to |matches|
      invariant ReplaceEach(r, matches[i..], vars) == ReplaceEach(mapping, matches, vars)
    {
      var m := matches[i];
      var value := Lookup(vars, NameOf(m));
      ReplaceEachStep(r, matches, i, vars);
      r := ReplaceFirst(r, m, value);
    }
    assert matches[|matches|..] == [];
  }

  /** One turn of the `forEach`: the remaining placeholders from `i` on, after replacing the `i`-th. */
  lemma {:induction false} ReplaceEachStep(t: string, ms: seq<string>, i: nat, vars: map<string, string>)
    requires i < |ms|
    ensures ReplaceEach(t, ms[i..], vars) == ReplaceEach(ReplaceFirst(t, ms[i], Lookup(vars, NameOf(ms[i]))), ms[i + 1..], vars)
  {
    var rest := ms[i..];
    assert rest[0] == ms[i] && rest[1..] == ms[i + 1..];
  }

  // ------------------------------------------------- the positional reading

  /**
   * The reference reading of a template: walk it once from left to right and put each
   * placeholder's value in the placeholder's own place.
   */
  function Substitute(s: string, vars: map<string, string>): string {
    if |s| == 0 then []
    else match SpanAt(s)
      case Some(e) => Lookup(vars, s[1..e - 1]) + Substitute(s[e..], vars)
      case None => [s[0]] + Substitute(s[1..], vars)
  }

  /** No resolved value contains a backtick. */
  predicate NoBacktickValues(vars: map<string, string>) {
    forall n :: n in vars ==> '`' !in vars[n]
  }

  /** Every backtick of `d` is cut off from any later backtick by a line terminator inside `d`. */
  ghost predicate Dead(d: string) {
    forall p :: 0 <= p < |d| ==> DeadAt(d, p)
  }

  /** The character at `p` is no backtick, or one whose span a line terminator inside `d` breaks. */
  ghost predicate DeadAt(d: string, p: nat)
    requires p < |d|
  {
    d[p] == '`' ==> Scan(d[p + 1..]).Broken?
  }

  lemma {:induction false} DeadConcat(a: string, b: string)
    requires Dead(a) && Dead(b)
    ensures Dead(a + b)
  {
    forall p | 0 <= p < |a + b| ensures DeadAt(a + b, p) {
      if p < |a| {
        assert DeadAt(a, p);
        if a[p] == '`' {
          assert (a + b)[p + 1..] == a[p + 1..] + b;
          ScanExtend(a[p + 1..], b);
        }
      } else {
        assert DeadAt(b, p - |a|);
        assert (a + b)[p + 1..] == b[p - |a| + 1..];
      }
    }
  }

  /** After a dead prefix, the first occurrence of a placeholder's text is the placeholder itself. */
  lemma {:induction false} FirstOccurrenceAfterDead(d: string, m: string, rest: string)
    requires Dead(d) && IsSpan(m)
    ensures IndexOf(d + m + rest, m) == Some(|d|)
  {
    var t := d + m + rest;
    IndexOfFirst(t, m);
    assert OccursAt(t, m, |d|) by {
      assert t[|d|..|d| + |m|] == m;
    }
    forall j | 0 <= j < |d| ensures !OccursAt(t, m, j) {
      if j + |m| <= |t| {
        assert DeadAt(d, j);
        if d[j] != '`' {
          assert t[j..j + |m|][0] != m[0];
        } else {
          var q := Scan(d[j + 1..]).at;
          ScanResult(d[j + 1..]);
          var c := |m| - 1;
          assert t[j + 1 + q] == d[j + 1 + q];
          if q + 1 < c {
            assert t[j..j + |m|][1 + q] != m[1 + q];
          } else if q + 1 == c {
            assert t[j..j + |m|][c] != m[c];
          } else {
            assert d[j + 1..][c - 1] == d[j + c];
            assert t[j..j + |m|][c] != m[c];
          }
        }
      }
    }
  }

  /** Text without a backtick holds no placeholder and is copied through by both readings. */
  lemma {:induction false} SkipNoBacktick(t: string, rest: string, vars: map<string, string>)
    requires forall j :: 0 <= j < |t| ==> t[j] != '`'
    ensures Spans(t + rest) == Spans(rest)
    ensures Substitute(t + rest, vars) == t + Substitute(rest, vars)
  {
    SkipNoBacktickSpans(t, rest);
    SkipNoBacktickSubstitute(t, rest, vars);
  }

  lemma {:induction false} SkipNoBacktickSpans(t: string, rest: string)
    requires forall j :: 0 <= j < |t| ==> t[j] != '`'
    ensures Spans(t + rest) == Spans(rest)
  {
    if |t| == 0 {
      assert t + rest == rest;
    } else {
      var u := t + rest;
      assert u[0] == t[0];
      assert SpanAt(u).None?;
      assert u[1..] == t[1..] + rest;
      SkipNoBacktickSpans(t[1..], rest);
      assert Spans(u) == Spans(u[1..]);
    }
  }

  lemma {:induction false} SkipNoBacktickSubstitute(t: string, rest: string, vars: map<string, string>)
    requires forall j :: 0 <= j < |t| ==> t[j] != '`'
    ensures Substitute(t + rest, vars) == t + Substitute(rest, vars)
  {
    if |t| == 0 {
      assert t + rest == rest;
    } else {
      var u := t + rest;
      assert u[0] == t[0];
      assert SpanAt(u).None?;
      assert u[1..] == t[1..] + rest;
      SkipNoBacktickSubstitute(t[1..], rest, vars);
      assert Substitute(u, vars) == [t[0]] + Substitute(u[1..], vars);
      assert [t[0]] + t[1..] == t;
    }
  }

  /** A match of the regular expression is the text of one placeholder. */
  lemma {:induction false} SpanAtIsSpan(s: string)
    requires SpanAt(s).Some?
    ensures IsSpan(s[..SpanAt(s).value])
  {
    var k := Scan(s[1..]).at;
    ScanResult(s[1..]);
    assert forall j :: 1 <= j < k + 1 ==> s[..k + 2][j] == s[j];
  }

  /** The step of the agreement proof at a placeholder: both readings put its value in its place. */
  lemma {:induction false} ReplaceStepAtSpan(d: string, s: string, vars: map<string, string>) returns (e: nat, v: string)
    requires Dead(d) && NoBacktickValues(vars) && SpanAt(s).Some?
    ensures e == SpanAt(s).value && v == Lookup(vars, s[1..e - 1]) && Dead(d + v)
    ensures ReplaceEach(d + s, Spans(s), vars) == ReplaceEach((d + v) + s[e..], Spans(s[e..]), vars)
    ensures Substitute(s, vars) == v + Substitute(s[e..], vars)
  {
    e := SpanAt(s).value;
    v := Lookup(vars, s[1..e - 1]);
    var m := s[..e];
    SpanAtIsSpan(s);
    assert NameOf(m) == s[1..e - 1];
    assert d + s == d + m + s[e..];
    FirstOccurrenceAfterDead(d, m, s[e..]);
    assert (d + s)[..|d|] == d && (d + s)[|d| + |m|..] == s[e..];
    assert ReplaceFirst(d + s, m, v) == (d + v) + s[e..];
    DeadConcat(d, v);
    assert Spans(s) == [m] + Spans(s[e..]);
    assert ([m] + Spans(s[e..]))[1..] == Spans(s[e..]);
  }

  /** A backtick followed by plain text up to a line terminator is dead. */
  lemma {:induction false} BrokenPrefixDead(s: string)
    requires |s| > 0 && s[0] == '`' && Scan(s[1..]).Broken?
    ensures Dead(s[..Scan(s[1..]).at + 2])
  {
    var q := Scan(s[1..]).at;
    ScanResult(s[1..]);
    var h := s[..q + 2];
    var t := h[1..];
    assert t == s[1..q + 2];
    forall p | 0 <= p < |h| ensures DeadAt(h, p) {
      if p == 0 {
        assert forall j :: 0 <= j <= q ==> t[j] == s[1..][j];
        ScanStopsAt(t, q);
      } else {
        assert h[p] == s[1..][p - 1];
      }
    }
  }

  /** The step of the agreement proof at a backtick whose span a line terminator breaks. */
  lemma {:induction false} ReplaceStepAtBroken(d: string, s: string, vars: map<string, string>) returns (k: nat)
    requires Dead(d) && |s| > 0 && s[0] == '`' && Scan(s[1..]).Broken?
    ensures 2 <= k <= |s| && Dead(d + s[..k])
    ensures Spans(s) == Spans(s[k..])
    ensures Substitute(s, vars) == s[..k] + Substitute(s[k..], vars)
  {
    k := SkipBroken(s, vars);
    BrokenPrefixDead(s);
    DeadConcat(d, s[..k]);
  }

  /** Both readings copy a broken span's text up to and including its line terminator. */
  lemma {:induction false} SkipBroken(s: string, vars: map<string, string>) returns (k: nat)
    requires |s| > 0 && s[0] == '`' && Scan(s[1..]).Broken?
    ensures k == Scan(s[1..]).at + 2 && k <= |s|
    ensures Spans(s) == Spans(s[k..])
    ensures Substitute(s, vars) == s[..k] + Substitute(s[k..], vars)
  {
    k := Scan(s[1..]).at + 2;
    var t := BrokenNoBacktick(s);
    SkipNoBacktickSpans(t, s[k..]);
    SkipNoBacktickSubstitute(t, s[k..], vars);
    assert s[1..] == t + s[k..];
    assert s[..k] == [s[0]] + t;
    assert SpanAt(s).None?;
    assert Spans(s) == Spans(s[1..]);
    assert Substitute(s, vars) == [s[0]] + Substitute(s[1..], vars);
    Assoc([s[0]], t, Substitute(s[k..], vars));
  }

  /** The text a broken span runs over, after its opening backtick, holds no backtick. */
  lemma {:induction false} BrokenNoBacktick(s: string) returns (t: string)
    requires |s| > 0 && s[0] == '`' && Scan(s[1..]).Broken?
    ensures Scan(s[1..]).at + 2 <= |s| && t == s[1..Scan(s[1..]).at + 2]
    ensures forall j :: 0 <= j < |t| ==> t[j] != '`'
  {
    var q := Scan(s[1..]).at;
    ScanResult(s[1..]);
    t := s[1..q + 2];
    forall j | 0 <= j < |t| ensures t[j] != '`' {
      assert t[j] == s[1..][j];
    }
  }

  /** The step of the agreement proof at a character that starts no placeholder and is no backtick. */
  lemma {:induction false} ReplaceStepAtPlain(d: string, s: string, vars: map<string, string>)
    requires Dead(d) && |s| > 0 && s[0] != '`'
    ensures Dead(d + s[..1])
    ensures ReplaceEach(d + s, Spans(s), vars) == ReplaceEach((d + s[..1]) + s[1..], Spans(s[1..]), vars)
    ensures Substitute(s, vars) == s[..1] + Substitute(s[1..], vars)
  {
    assert s[..1] == [s[0]];
    DeadConcat(d, [s[0]]);
    assert d + s == (d + [s[0]]) + s[1..];
    assert SpanAt(s).None?;
  }

  /** A step of the agreement proof over text that holds no placeholder start. */
  lemma {:induction false} ReplaceStepAtText(d: string, s: string, vars: map<string, string>) returns (k: nat)
    requires Dead(d) && |s| > 0 && SpanAt(s).None? && !(s[0] == '`' && Scan(s[1..]).Open?)
    ensures 1 <= k <= |s| && Dead(d + s[..k])
    ensures ReplaceEach(d + s, Spans(s), vars) == ReplaceEach((d + s[..k]) + s[k..], Spans(s[k..]), vars)
    ensures Substitute(s, vars) == s[..k] + Substitute(s[k..], vars)
  {
    if s[0] != '`' {
      ReplaceStepAtPlain(d, s, vars);
      k := 1;
    } else {
      k := ReplaceStepAtBroken(d, s, vars);
      assert d + s == (d + s[..k]) + s[k..];
    }
  }

  /** The step of the agreement proof at a backtick never closed: nothing is left to replace. */
  lemma {:induction false} ReplaceStepAtOpen(d: string, s: string, vars: map<string, string>)
    requires |s| > 0 && s[0] == '`' && Scan(s[1..]).Open?
    ensures ReplaceEach(d + s, Spans(s), vars) == d + Substitute(s, vars)
  {
    ScanResult(s[1..]);
    SkipNoBacktick(s[1..], [], vars);
    assert s[1..] + [] == s[1..];
    assert SpanAt(s).None?;
    assert Spans(s) == Spans(s[1..]) == [];
    assert [s[0]] + s[1..] == s;
  }

  /** The agreement, after a prefix `d` that the replacements have already passed. */
  lemma {:induction false} ReplaceAfterDead(d: string, s: string, vars: map<string, string>)
    requires Dead(d) && NoBacktickValues(vars)
    ensures ReplaceEach(d + s, Spans(s), vars) == d + Substitute(s, vars)
    decreases |s|, 1
  {
    if |s| == 0 {
      assert d + s == d;
    } else if SpanAt(s).Some? {
      ReplaceAfterSpan(d, s, vars);
    } else if s[0] == '`' && Scan(s[1..]).Open? {
      ReplaceStepAtOpen(d, s, vars);
    } else {
      ReplaceAfterText(d, s, vars);
    }
  }

  lemma {:induction false} ReplaceAfterSpan(d: string, s: string, vars: map<string, string>)
    requires Dead(d) && NoBacktickValues(vars) && SpanAt(s).Some?
    ensures ReplaceEach(d + s, Spans(s), vars) == d + Substitute(s, vars)
    decreases |s|, 0
  {
    var e, v := ReplaceStepAtSpan(d, s, vars);
    ReplaceAfterDead(d + v, s[e..], vars);
    Assoc(d, v, Substitute(s[e..], vars));
  }

  lemma {:induction false} ReplaceAfterText(d: string, s: string, vars: map<string, string>)
    requires Dead(d) && NoBacktickValues(vars) && |s| > 0 && SpanAt(s).None? && !(s[0] == '`' && Scan(s[1..]).Open?)
    ensures ReplaceEach(d + s, Spans(s), vars) == d + Substitute(s, vars)
    decreases |s|, 0
  {
    var k := ReplaceStepAtText(d, s, vars);
    ReplaceAfterDead(d + s[..k], s[k..], vars);
    Assoc(d, s[..k], Substitute(s[k..], vars));
  }

  /** Concatenation regroups freely. */
  lemma Assoc(a: string, b: string, c: string)
    ensures (a + b) + c == a + (b + c)
  {
  }

  /**
   * When no resolved value contains a backtick, replacing each placeholder at its first
   * remaining occurrence is the same as putting each value in its placeholder's place.
   */
  lemma {:induction false} ResolvedIsPositional(s: string, vars: map<string, string>)
    requires NoBacktickValues(vars)
    ensures Resolved(s, vars) == Substitute(s, vars)
  {
    ReplaceFromStart(s, vars);
  }

  /** The agreement with nothing passed yet. */
  lemma {:induction false} ReplaceFromStart(s: string, vars: map<string, string>)
    requires NoBacktickValues(vars)
    ensures ReplaceEach(s, Spans(s), vars) == Substitute(s, vars)
  {
    var d: string := [];
    assert Dead(d);
    ReplaceAfterDead(d, s, vars);
    assert d + s == s;
    assert d + Substitute(s, vars) == Substitute(s, vars);
  }

  /** A template that is one placeholder resolves to the value of its variable. */
  lemma {:induction false} WholePlaceholder(name: string, vars: map<string, string>)
    requires forall i :: 0 <= i < |name| ==> Plain(name[i])
    ensures Resolved(['`'] + name + ['`'], vars) == Lookup(vars, name)
  {
    var s := ['`'] + name + ['`'];
    assert s[1..] == name + ['`'];
    ScanStopsAt(s[1..], |name|);
    assert SpanAt(s) == Some(|s|);
    assert s[..|s|] == s && s[|s|..] == [];
    assert Spans(s) == [s];
    assert s[1..|s| - 1] == name;
    assert IndexOf(s, s) == Some(0);
    assert NameOf(s) == name;
    assert ReplaceFirst(s, s, Lookup(vars, name)) == Lookup(vars, name);
    assert [s][0] == s && [s][1..] == [];
    assert ReplaceEach(s, [s], vars) == ReplaceEach(Lookup(vars, name), [], vars);
  }

  /** A template without a backtick comes back unchanged. */
  lemma {:induction false} NoBacktickUnchanged(s: string, vars: map<string, string>)
    requires '`' !in s
    ensures Spans(s) == []
    ensures Resolved(s, vars) == s
  {
    SkipNoBacktick(s, [], vars);
    assert s + [] == s;
  }

  /** A one-character placeholder at the front: the regular expression matches its three characters. */
  lemma {:induction false} ShortSpanAt(s: string)
    requires |s| >= 3 && s[0] == '`' && Plain(s[1]) && s[2] == '`'
    ensures SpanAt(s) == Some(3) && s[..3] == [s[0], s[1], s[2]]
  {
    ScanStopsAt(s[1..], 1);
  }

  /** Both readings at a one-character placeholder followed by further text. */
  lemma {:induction false} ShortSpanStep(s: string, vars: map<string, string>)
    requires |s| >= 3 && s[0] == '`' && Plain(s[1]) && s[2] == '`'
    ensures Spans(s) == [s[..3]] + Spans(s[3..])
    ensures Substitute(s, vars) == Lookup(vars, [s[1]]) + Substitute(s[3..], vars)
  {
    ShortSpanAt(s);
    assert s[1..2] == [s[1]];
  }

  /** Both readings at a character that is no backtick. */
  lemma {:induction false} PlainStep(s: string, vars: map<string, string>)
    requires |s| > 0 && s[0] != '`'
    ensures Spans(s) == Spans(s[1..])
    ensures Substitute(s, vars) == [s[0]] + Substitute(s[1..], vars)
  {
  }

  /** The spans of -`y`, and its positional reading. */
  lemma {:induction false} DashTail(y: char, vars: map<string, string>)
    requires Plain(y)
    ensures Spans(['-', '`', y, '`']) == [['`', y, '`']]
    ensures Substitute(['-', '`', y, '`'], vars) == "-" + Lookup(vars, [y])
  {
    var w := ['-', '`', y, '`'];
    var u := ['`', y, '`'];
    PlainStep(w, vars);
    assert w[1..] == u;
    ShortSpanStep(u, vars);
    assert u[..3] == u && u[3..] == [];
    assert Spans(u) == [u];
    assert Substitute(u, vars) == Lookup(vars, [y]);
  }

  /** The spans of `x`-`y`. */
  lemma {:induction false} DashSpans(x: char, y: char)
    requires Plain(x) && Plain(y)
    ensures Spans(['`', x, '`', '-', '`', y, '`']) == [['`', x, '`'], ['`', y, '`']]
  {
    var s := ['`', x, '`', '-', '`', y, '`'];
    var w := ['-', '`', y, '`'];
    ShortSpanStep(s, map[]);
    assert s[..3] == ['`', x, '`'] && s[3..] == w;
    DashTail(y, map[]);
  }

  /** The positional reading of `x`-`y`. */
  lemma {:induction false} DashSubstitute(x: char, y: char, vars: map<string, string>)
    requires Plain(x) && Plain(y)
    ensures Substitute(['`', x, '`', '-', '`', y, '`'], vars) == Lookup(vars, [x]) + "-" + Lookup(vars, [y])
  {
    var s := ['`', x, '`', '-', '`', y, '`'];
    var w := ['-', '`', y, '`'];
    ShortSpanStep(s, vars);
    assert s[3..] == w;
    DashTail(y, vars);
  }

  /** With values free of backticks, `x`-`y` resolves to the two values around the dash. */
  lemma {:induction false} DashResolved(x: char, y: char, vars: map<string, string>)
    requires Plain(x) && Plain(y) && NoBacktickValues(vars)
    ensures Resolved(['`', x, '`', '-', '`', y, '`'], vars) == Lookup(vars, [x]) + "-" + Lookup(vars, [y])
  {
    ResolvedIsPositional(['`', x, '`', '-', '`', y, '`'], vars);
    DashSubstitute(x, y, vars);
  }

  /** The template `a`-`b` with a = "1" and b = "2" resolves to "1-2". */
  lemma {:induction false} ExampleDashTemplate()
    ensures Resolved("`a`-`b`", map["a" := "1", "b" := "2"]) == "1-2"
  {
    var vars := map["a" := "1", "b" := "2"];
    assert NoBacktickValues(vars) by {
      assert vars.Keys == {"a", "b"};
      assert '`' !in "1" && '`' !in "2";
    }
    assert Lookup(vars, "a") == "1" && Lookup(vars, "b") == "2";
    DashResolved('a', 'b', vars);
    assert ['`', 'a', '`', '-', '`', 'b', '`'] == "`a`-`b`";
    assert "1" + "-" + "2" == "1-2";
  }

  /** Replacing `m` at the front of `m + rest`, where `m` is a placeholder. */
  lemma {:induction false} ReplaceAtFront(m: string, rest: string, v: string)
    requires IsSpan(m)
    ensures ReplaceFirst(m + rest, m, v) == v + rest
  {
    FirstOccurrenceAfterDead([], m, rest);
    assert [] + m + rest == m + rest;
    assert (m + rest)[|m|..] == rest;
  }

  /** When `x`'s value is the placeholder of `y`, the replacements of `x`-`y` replace `y` twice over at the front. */
  lemma {:induction false} ValueReplacedAgain(x: char, y: char, vars: map<string, string>)
    requires Plain(x) && Plain(y) && Lookup(vars, [x]) == ['`', y, '`']
    ensures Resolved(['`', x, '`', '-', '`', y, '`'], vars) == Lookup(vars, [y]) + ['-', '`', y, '`']
  {
    var ma, mb, w := ['`', x, '`'], ['`', y, '`'], ['-', '`', y, '`'];
    var s := ma + w;
    assert s == ['`', x, '`', '-', '`', y, '`'];
    DashSpans(x, y);
    assert Spans(s) == [ma, mb];
    assert IsSpan(ma) && IsSpan(mb);
    assert NameOf(ma) == [x] && NameOf(mb) == [y];
    ReplaceAtFront(ma, w, mb);
    ReplaceAtFront(mb, w, Lookup(vars, [y]));
    assert [ma, mb][0] == ma && [ma, mb][1..] == [mb] && [mb][1..] == [];
    assert ReplaceEach(s, [ma, mb], vars) == ReplaceEach(mb + w, [mb], vars);
    assert ReplaceEach(mb + w, [mb], vars) == ReplaceEach(Lookup(vars, [y]) + w, [], vars);
  }

  /**
   * A value that itself reads as a placeholder is substituted again: with a = "`b`" and
   * b = "2", the template `a`-`b` resolves to "2-`b`".
   */
  lemma {:induction false} ExampleValueReplacedAgain()
    ensures Resolved("`a`-`b`", map["a" := "`b`", "b" := "2"]) == "2-`b`"
  {
    var vars := map["a" := "`b`", "b" := "2"];
    assert Lookup(vars, "a") == "`b`" && Lookup(vars, "b") == "2";
    ValueReplacedAgain('a', 'b', vars);
    assert ['`', 'a', '`', '-', '`', 'b', '`'] == "`a`-`b`";
    assert "2" + ['-', '`', 'b', '`'] == "2-`b`";
  }

  /** The positional reading of the same template puts each value in its own place: "`b`-2". */
  lemma {:induction false} ExamplePositionalReading()
    ensures Substitute("`a`-`b`", map["a" := "`b`", "b" := "2"]) == "`b`-2"
  {
    var vars := map["a" := "`b`", "b" := "2"];
    assert Lookup(vars, "a") == "`b`" && Lookup(vars, "b") == "2";
    DashSubstitute('a', 'b', vars);
    assert ['`', 'a', '`', '-', '`', 'b', '`'] == "`a`-`b`";
    assert "`b`" + "-" + "2" == "`b`-2";
  }
}
