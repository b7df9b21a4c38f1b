/**
 Text inside a quoted value of a forwarded client certificate header cannot make or change another
 pair: the proxy writes client-chosen text such as a certificate subject there.
 */
module XfccQuotes {
  import opened Sequences
  import opened XfccSplit

  /** The scan goes through `text` without leaving quotes and ends inside them. */
  ghost predicate Contained(m: Mode, text: string) {
    Scan(m, text) == In && forall i :: 0 <= i <= |text| ==> Scan(m, text[..i]) != Out
  }

  /** Text with its quotes and backslashes escaped, as proxies write it. */
  function Escape(text: string): string {
    if text == [] then []
    else (if text[0] == '"' || text[0] == '\\' then ['\\', text[0]] else [text[0]]) + Escape(text[1..])
  }

  function Quoted(text: string): string {
    ['"'] + text + ['"']
  }

  lemma ContainedTail(m: Mode, text: string)
    requires Contained(m, text) && text != []
    ensures m != Out && Contained(Step(m, text[0]), text[1..])
  {
    assert Scan(m, text[..0]) == m;
    forall i | 0 <= i <= |text[1..]| ensures Scan(Step(m, text[0]), text[1..][..i]) != Out {
      assert text[..i + 1][1..] == text[1..][..i];
      assert Scan(m, text[..i + 1]) != Out;
    }
  }

  lemma ContainedCons(m: Mode, c: char, text: string)
    requires m != Out && Contained(Step(m, c), text)
    ensures Contained(m, [c] + text)
  {
    var all := [c] + text;
    assert all[1..] == text;
    forall i | 0 <= i <= |all| ensures Scan(m, all[..i]) != Out {
      if i > 0 { assert all[..i][1..] == text[..i - 1]; }
    }
  }

  /** Escaped text never leaves its quotes, whatever it is. */
  lemma {:induction false} EscapeContained(text: string)
    ensures Contained(In, Escape(text))
    decreases |text|
  {
    if text != [] {
      EscapeContained(text[1..]);
      if text[0] == '"' || text[0] == '\\' {
        ContainedCons(Escaped, text[0], Escape(text[1..]));
        ContainedCons(In, '\\', [text[0]] + Escape(text[1..]));
        assert ['\\', text[0]] + Escape(text[1..]) == ['\\'] + ([text[0]] + Escape(text[1..]));
      } else {
        ContainedCons(In, text[0], Escape(text[1..]));
      }
    }
  }

  // ----- splitting around a quoted value ----------------------------------------------------------------------

  /** Two runs of parts, the last of the first joined to the first of the second. */
  function Splice(a: seq<string>, b: seq<string>): seq<string>
    requires a != [] && b != []
  {
    a[..|a| - 1] + [a[|a| - 1] + b[0]] + b[1..]
  }

  lemma SpliceGlue(head: string, a: seq<string>, b: seq<string>)
    requires a != [] && b != []
    ensures Splice(Glue(head, a), b) == Glue(head, Splice(a, b))
  {
    if |a| == 1 {
      assert head + (a[0] + b[0]) == (head + a[0]) + b[0];
    } else {
      assert Splice(a, b)[0] == a[0];
    }
  }

  lemma SpliceCons(head: string, a: seq<string>, b: seq<string>)
    requires a != [] && b != []
    ensures Splice([head] + a, b) == [head] + Splice(a, b)
  {
  }

  lemma {:induction false} SplitConcat(m: Mode, seps: set<char>, a: string, b: string)
    requires Plain(seps)
    ensures SplitFrom(m, seps, a + b) == Splice(SplitFrom(m, seps, a), SplitFrom(Scan(m, a), seps, b))
    decreases |a|
  {
    var rest := SplitFrom(Scan(m, a), seps, b);
    if a == [] {
      assert a + b == b && [] + rest[0] == rest[0];
    } else {
      assert (a + b)[1..] == a[1..] + b;
      var tail := SplitFrom(Step(m, a[0]), seps, a[1..]);
      SplitConcat(Step(m, a[0]), seps, a[1..], b);
      SpliceGlue([a[0]], tail, rest);
      SpliceCons([], tail, rest);
    }
  }

  lemma {:induction false} InsideWhole(m: Mode, seps: set<char>, text: string)
    requires Contained(m, text)
    ensures SplitFrom(m, seps, text + ['"']) == [text + ['"']] && Scan(m, text + ['"']) == Out
    decreases |text|
  {
    if text == [] {
      assert text + ['"'] == ['"'] && ['"'][1..] == [];
      assert SplitFrom(Out, seps, []) == [[]];
      assert ['"'] + [] == ['"'];
    } else {
      ContainedTail(m, text);
      assert (text + ['"'])[1..] == text[1..] + ['"'];
      InsideWhole(Step(m, text[0]), seps, text[1..]);
      assert [text[0]] + (text[1..] + ['"']) == text + ['"'];
    }
  }

  lemma QuotedWhole(seps: set<char>, text: string)
    requires Plain(seps) && Contained(In, text)
    ensures Split(Quoted(text), seps) == [Quoted(text)] && Scan(Out, Quoted(text)) == Out
  {
    var rest := text + ['"'];
    InsideWhole(In, seps, text);
    assert Quoted(text) == ['"'] + rest && Quoted(text)[1..] == rest;
  }

  /** A quoted value stays inside the one part it stands in, between what surrounds it. */
  lemma SplitAround(seps: set<char>, a: string, text: string, b: string)
    requires Plain(seps) && Scan(Out, a) == Out && Contained(In, text)
    ensures Split(a + Quoted(text) + b, seps) == Splice(Splice(Split(a, seps), [Quoted(text)]), Split(b, seps))
  {
    QuotedWhole(seps, text);
    SplitConcat(Out, seps, a, Quoted(text));
    ScanAppend(Out, a, Quoted(text));
    SplitConcat(Out, seps, a + Quoted(text), b);
  }

  // ----- the first hop ---------------------------------------------------------------------------------------------

  /** The quoted value belongs to the first hop: no hop ends before it. */
  ghost predicate InFirstHop(a: string) {
    |Split(a, {','})| == 1
  }

  lemma FirstHopAround(a: string, text: string, b: string)
    requires Scan(Out, a) == Out && Contained(In, text)
    ensures FirstHop(a + Quoted(text) + b) ==
            if InFirstHop(a) then Splice(Splice(FirstHop(a), [Quoted(text)]), FirstHop(b)) else FirstHop(a)
  {
    var parts, rest := Split(a, {','}), Split(b, {','});
    SplitAround({','}, a, text, b);
    SplitMeaning(a, ',', parts);
    if InFirstHop(a) {
      assert Split(a + Quoted(text) + b, {','})[0] == a + Quoted(text) + rest[0];
      SplitAround({';'}, a, text, rest[0]);
    } else {
      assert Split(a + Quoted(text) + b, {','})[0] == parts[0];
    }
  }

  /** Whatever text stands in the quotes, the first hop has as many pairs and all the other pairs are the same. */
  lemma OtherPairsUnchanged(a: string, text: string, other: string, b: string)
    requires Scan(Out, a) == Out && Contained(In, text) && Contained(In, other)
    ensures var x, y := FirstHop(a + Quoted(text) + b), FirstHop(a + Quoted(other) + b);
            |x| == |y| && forall i :: 0 <= i < |x| && i != |FirstHop(a)| - 1 ==> x[i] == y[i]
  {
    FirstHopAround(a, text, b);
    FirstHopAround(a, other, b);
  }

  // ----- the selected certificate ------------------------------------------------------------------------------------

  lemma {:induction false} LastValueIgnores(t: Text, x: seq<string>, y: seq<string>, name: string, k: int)
    requires |x| == |y| && forall i :: 0 <= i < |x| && i != k ==> x[i] == y[i]
    requires 0 <= k < |x| ==> !Named(t, x[k], name) && !Named(t, y[k], name)
    ensures LastValue(t, x, name) == LastValue(t, y, name)
    decreases |x|
  {
    if x != [] { LastValueIgnores(t, x[..|x| - 1], y[..|y| - 1], name, k); }
  }

  lemma NamedByKey(t: Text, front: string, rest: string, name: string)
    requires '=' in front
    ensures Named(t, front + rest, name) == Named(t, front, name)
  {
    FirstIndexSplit(front, rest, '=');
    assert (front + rest)[..FirstIndex(front, '=')] == front[..FirstIndex(front, '=')];
  }

  /** The pair up to the quoted value has a key, which is neither Cert nor Chain. */
  ghost predicate OtherKey(t: Text, a: string) {
    var front := FirstHop(a)[|FirstHop(a)| - 1];
    '=' in front && !Named(t, front, "cert") && !Named(t, front, "chain")
  }

  lemma PairAround(t: Text, a: string, text: string, b: string, name: string)
    requires Scan(Out, a) == Out && Contained(In, text) && InFirstHop(a) && OtherKey(t, a) && (name == "cert" || name == "chain")
    ensures var x := FirstHop(a + Quoted(text) + b); |FirstHop(a)| <= |x| && !Named(t, x[|FirstHop(a)| - 1], name)
  {
    FirstHopAround(a, text, b);
    var hop, rest := FirstHop(a), FirstHop(b);
    var front := hop[|hop| - 1];
    var x := Splice(Splice(hop, [Quoted(text)]), rest);
    assert x[|hop| - 1] == front + Quoted(text) + rest[0];
    assert front + Quoted(text) + rest[0] == front + (Quoted(text) + rest[0]);
    NamedByKey(t, front, Quoted(text) + rest[0], name);
  }

  /**
   No injection: whatever text stands inside a quoted value of another key, or of a later hop, the
   certificate or chain taken from the header is the same.
   */
  lemma QuotedTextInert(t: Text, a: string, text: string, other: string, b: string)
    requires Scan(Out, a) == Out && Contained(In, text) && Contained(In, other)
    requires InFirstHop(a) ==> OtherKey(t, a)
    ensures Source(t, a + Quoted(text) + b) == Source(t, a + Quoted(other) + b)
  {
    if InFirstHop(a) {
      OtherPairsUnchanged(a, text, other, b);
      var k := |FirstHop(a)| - 1;
      PairAround(t, a, text, b, "cert");
      PairAround(t, a, other, b, "cert");
      LastValueIgnores(t, FirstHop(a + Quoted(text) + b), FirstHop(a + Quoted(other) + b), "cert", k);
      PairAround(t, a, text, b, "chain");
      PairAround(t, a, other, b, "chain");
      LastValueIgnores(t, FirstHop(a + Quoted(text) + b), FirstHop(a + Quoted(other) + b), "chain", k);
    } else {
      FirstHopAround(a, text, b);
      FirstHopAround(a, other, b);
    }
  }
}
