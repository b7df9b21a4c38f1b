/** The quote-aware splitter of forwarded client certificate headers, and its two-level use. */
module XfccSplit {
  import opened Sequences

  /** Outside quotes, inside quotes, or inside quotes right after a backslash. */
  datatype Mode = Out | In | Escaped

  function Step(m: Mode, c: char): Mode {
    match m
    case Out => if c == '"' then In else Out
    case In => if c == '\\' then Escaped else if c == '"' then Out else In
    case Escaped => In
  }

  function Scan(m: Mode, s: string): Mode
    decreases |s|
  {
    if s == [] then m else Scan(Step(m, s[0]), s[1..])
  }

  /** Separators the automaton itself does not react to. */
  ghost predicate Plain(seps: set<char>) {
    '"' !in seps && '\\' !in seps
  }

  // ----- what a split is -----------------------------------------------------------------------------------

  /** A separator met outside quotes, scanning `s` from mode `m`. */
  ghost predicate IsCut(m: Mode, seps: set<char>, s: string, i: nat) {
    i < |s| && s[i] in seps && Scan(m, s[..i]) == Out
  }

  ghost predicate NoCut(m: Mode, seps: set<char>, s: string) {
    forall i: nat :: i < |s| ==> !IsCut(m, seps, s, i)
  }

  /** `parts` are the stretches of `s` between all its cuts. */
  ghost predicate IsSplit(m: Mode, seps: set<char>, s: string, parts: seq<string>)
    decreases |parts|
  {
    parts != [] &&
    if |parts| == 1 then parts[0] == s && NoCut(m, seps, s)
    else
      var n := |parts[0]|;
      && n < |s| && s[..n] == parts[0] && NoCut(m, seps, parts[0]) && IsCut(m, seps, s, n)
      && IsSplit(Out, seps, s[n + 1..], parts[1..])
  }

  lemma {:induction false} SplitUnique(m: Mode, seps: set<char>, s: string, a: seq<string>, b: seq<string>)
    requires IsSplit(m, seps, s, a) && IsSplit(m, seps, s, b)
    ensures a == b
    decreases |a|
  {
    FirstPart(m, seps, s, a, b);
    FirstPart(m, seps, s, b, a);
    if |a| > 1 { SplitUnique(Out, seps, s[|a[0]| + 1..], a[1..], b[1..]); }
  }

  /** The first part ends at the first cut. */
  lemma FirstPart(m: Mode, seps: set<char>, s: string, a: seq<string>, b: seq<string>)
    requires IsSplit(m, seps, s, a) && IsSplit(m, seps, s, b)
    ensures |a[0]| >= |b[0]|
    ensures |a| > 1 ==> |b| > 1
  {
    var n := |a[0]|;
    if |a| > 1 && (n < |b[0]| || |b| == 1) {
      assert b[0][..n] == s[..n];
      assert IsCut(m, seps, b[0], n);
    }
  }

  // ----- what a split gives back ------------------------------------------------------------------------------

  function Join(parts: seq<string>, sep: char): string {
    if parts == [] then [] else if |parts| == 1 then parts[0] else parts[0] + [sep] + Join(parts[1..], sep)
  }

  lemma {:induction false} JoinBack(m: Mode, sep: char, s: string, parts: seq<string>)
    requires IsSplit(m, {sep}, s, parts)
    ensures Join(parts, sep) == s
    decreases |parts|
  {
    if |parts| > 1 {
      var n := |parts[0]|;
      JoinBack(Out, sep, s[n + 1..], parts[1..]);
      assert s == s[..n] + [s[n]] + s[n + 1..];
    }
  }

  lemma {:induction false} ScanAppend(m: Mode, a: string, b: string)
    ensures Scan(m, a + b) == Scan(Scan(m, a), b)
    decreases |a|
  {
    if a == [] {
      assert a + b == b;
    } else {
      assert (a + b)[1..] == a[1..] + b;
      ScanAppend(Step(m, a[0]), a[1..], b);
    }
  }

  /** Where part `k` starts. */
  function Offset(parts: seq<string>, k: nat): nat
    requires k < |parts|
    decreases k
  {
    if k == 0 then 0 else |parts[0]| + 1 + Offset(parts[1..], k - 1)
  }

  /** Scanning a part on its own goes through the same modes as scanning it in context. */
  lemma {:induction false} SameModes(seps: set<char>, s: string, parts: seq<string>, k: nat, j: nat)
    requires Plain(seps) && IsSplit(Out, seps, s, parts) && k < |parts| && j <= |parts[k]|
    ensures Offset(parts, k) + |parts[k]| <= |s|
    ensures s[Offset(parts, k)..Offset(parts, k) + |parts[k]|] == parts[k]
    ensures Scan(Out, s[..Offset(parts, k) + j]) == Scan(Out, parts[k][..j])
    decreases k
  {
    if k == 0 {
      assert s[..|parts[0]|][..j] == s[..j];
    } else {
      var n := |parts[0]|;
      SameModes(seps, s[n + 1..], parts[1..], k - 1, j);
      var at := Offset(parts[1..], k - 1);
      assert s[n + 1..][at..at + |parts[k]|] == s[n + 1 + at..n + 1 + at + |parts[k]|];
      AfterCut(seps, s, n, at + j);
    }
  }

  /** From a cut on, the scan goes as if it began there. */
  lemma AfterCut(seps: set<char>, s: string, n: nat, j: nat)
    requires Plain(seps) && IsCut(Out, seps, s, n) && n + 1 + j <= |s|
    ensures Scan(Out, s[..n + 1 + j]) == Scan(Out, s[n + 1..][..j])
  {
    var rest := s[n + 1..][..j];
    assert s[..n + 1 + j] == s[..n] + ([s[n]] + rest);
    ScanAppend(Out, s[..n], [s[n]] + rest);
    assert ([s[n]] + rest)[1..] == rest;
  }

  // ----- splitting ---------------------------------------------------------------------------------------------

  function Glue(head: string, parts: seq<string>): seq<string>
    requires parts != []
  {
    [head + parts[0]] + parts[1..]
  }

  /** Splits what is left of the input, from mode `m`. */
  function SplitFrom(m: Mode, seps: set<char>, s: string): (parts: seq<string>)
    ensures parts != []
    decreases |s|
  {
    if s == [] then [[]]
    else if m == Out && s[0] in seps then [[]] + SplitFrom(Out, seps, s[1..])
    else Glue([s[0]], SplitFrom(Step(m, s[0]), seps, s[1..]))
  }

  function Split(s: string, seps: set<char>): seq<string> {
    SplitFrom(Out, seps, s)
  }

  lemma CutTail(m: Mode, seps: set<char>, s: string, i: nat)
    requires s != []
    ensures IsCut(m, seps, s, i + 1) <==> IsCut(Step(m, s[0]), seps, s[1..], i)
  {
    if i + 1 < |s| {
      assert s[..i + 1][1..] == s[1..][..i];
    }
  }

  lemma NoCutTail(m: Mode, seps: set<char>, s: string)
    requires s != [] && !(m == Out && s[0] in seps) && NoCut(Step(m, s[0]), seps, s[1..])
    ensures NoCut(m, seps, s)
  {
    forall i: nat | i < |s| ensures !IsCut(m, seps, s, i) {
      if i > 0 { CutTail(m, seps, s, i - 1); }
    }
  }

  lemma {:induction false} SplitFromIsSplit(m: Mode, seps: set<char>, s: string)
    ensures IsSplit(m, seps, s, SplitFrom(m, seps, s))
    decreases |s|
  {
    if s == [] {
    } else if m == Out && s[0] in seps {
      SplitFromIsSplit(Out, seps, s[1..]);
    } else {
      SplitFromIsSplit(Step(m, s[0]), seps, s[1..]);
      GlueIsSplit(m, seps, s, SplitFrom(Step(m, s[0]), seps, s[1..]));
    }
  }

  lemma GlueIsSplit(m: Mode, seps: set<char>, s: string, rest: seq<string>)
    requires s != [] && !(m == Out && s[0] in seps) && IsSplit(Step(m, s[0]), seps, s[1..], rest)
    ensures IsSplit(m, seps, s, Glue([s[0]], rest))
  {
    var first := [s[0]] + rest[0];
    var n := |rest[0]|;
    assert first[1..] == rest[0];
    NoCutTail(m, seps, first);
    if |rest| > 1 {
      CutTail(m, seps, s, n);
      assert s[1..][n + 1..] == s[n + 2..] && s[..n + 1] == first;
      assert Glue([s[0]], rest)[1..] == rest[1..];
    } else {
      assert first == s;
    }
  }

  /** The parts are the only ones with the cuts of the automaton, and joined they give the input back. */
  lemma SplitMeaning(s: string, sep: char, parts: seq<string>)
    ensures IsSplit(Out, {sep}, s, parts) <==> parts == Split(s, {sep})
    ensures Join(Split(s, {sep}), sep) == s
  {
    SplitFromIsSplit(Out, {sep}, s);
    JoinBack(Out, sep, s, Split(s, {sep}));
    if IsSplit(Out, {sep}, s, parts) { SplitUnique(Out, {sep}, s, parts, Split(s, {sep})); }
  }

  // ----- two levels ----------------------------------------------------------------------------------------------

  /** Every part split again; the first one from mode `m`. */
  function SplitEach(m: Mode, seps: set<char>, parts: seq<string>): seq<string>
    decreases |parts|
  {
    if parts == [] then [] else SplitFrom(m, seps, parts[0]) + SplitEach(Out, seps, parts[1..])
  }

  lemma GlueAppend(head: string, parts: seq<string>, more: seq<string>)
    requires parts != []
    ensures Glue(head, parts + more) == Glue(head, parts) + more
  {
  }

  /** Prefixing the first part with an ordinary character prefixes the first piece. */
  lemma SplitEachGlue(m: Mode, b: char, c: char, rest: seq<string>)
    requires rest != [] && !(m == Out && c == b)
    ensures SplitEach(Step(m, c), {b}, rest) != []
    ensures SplitEach(m, {b}, Glue([c], rest)) == Glue([c], SplitEach(Step(m, c), {b}, rest))
  {
  }

  /** Prefixing the first part with the inner separator adds an empty piece. */
  lemma SplitEachCut(b: char, rest: seq<string>)
    requires rest != []
    ensures SplitEach(Out, {b}, Glue([b], rest)) == [[]] + SplitEach(Out, {b}, rest)
  {
  }

  lemma {:induction false} TwoLevelsFrom(m: Mode, a: char, b: char, s: string)
    requires Plain({a, b}) && a != b
    ensures SplitFrom(m, {a, b}, s) == SplitEach(m, {b}, SplitFrom(m, {a}, s))
    decreases |s|
  {
    if s == [] {
      assert SplitEach(m, {b}, [[]]) == [[]] + SplitEach(Out, {b}, []);
    } else {
      TwoLevelsFrom(Step(m, s[0]), a, b, s[1..]);
      var rest := SplitFrom(Step(m, s[0]), {a}, s[1..]);
      if m == Out && s[0] == a {
        assert ([[]] + rest)[1..] == rest;
      } else if m == Out && s[0] == b {
        SplitEachCut(b, rest);
      } else {
        SplitEachGlue(m, b, s[0], rest);
      }
    }
  }

  /** Splitting at one separator and every part at another is one pass over the input with both. */
  lemma TwoLevels(s: string, a: char, b: char)
    requires Plain({a, b}) && a != b
    ensures SplitEach(Out, {b}, Split(s, {a})) == Split(s, {a, b})
  {
    TwoLevelsFrom(Out, a, b, s);
  }

  // ----- the splitter ----------------------------------------------------------------------------------------------

  /** A quote or backslash is taken as such before it is taken as the separator. */
  function Cutters(sep: char): set<char> {
    if sep == '"' || sep == '\\' then {} else {sep}
  }

  /** What a finished scan makes of the stretch begun at `start`. */
  ghost function Pending(s: string, start: nat, i: nat, m: Mode, seps: set<char>): seq<string>
    requires start <= i <= |s|
  {
    Glue(s[start..i], SplitFrom(m, seps, s[i..]))
  }

  lemma PendingNext(s: string, start: nat, i: nat, m: Mode, seps: set<char>)
    requires start <= i < |s|
    ensures m == Out && s[i] in seps ==> Pending(s, start, i, m, seps) == [s[start..i]] + Pending(s, i + 1, i + 1, Out, seps)
    ensures !(m == Out && s[i] in seps) ==> Pending(s, start, i, m, seps) == Pending(s, start, i + 1, Step(m, s[i]), seps)
  {
    assert s[i..][1..] == s[i + 1..] && s[i..][0] == s[i];
    if m == Out && s[i] in seps {
      var rest := SplitFrom(Out, seps, s[i + 1..]);
      assert s[start..i] + [] == s[start..i] && s[i + 1..i + 1] == [];
      GlueNothing(rest);
      assert ([[]] + rest)[0] == [] && ([[]] + rest)[1..] == rest;
    } else {
      var rest := SplitFrom(Step(m, s[i]), seps, s[i + 1..]);
      assert s[start..i] + ([s[i]] + rest[0]) == s[start..i + 1] + rest[0];
      assert Glue([s[i]], rest)[1..] == rest[1..];
    }
  }

  lemma GlueNothing(parts: seq<string>)
    requires parts != []
    ensures Glue([], parts) == parts
  {
    assert [] + parts[0] == parts[0];
  }

  lemma PendingEnd(s: string, start: nat, m: Mode, seps: set<char>)
    requires start <= |s|
    ensures Pending(s, start, |s|, m, seps) == [s[start..]]
  {
    assert s[|s|..] == [] && s[start..|s|] + [] == s[start..];
  }

  method SplitUnquoted(s: string, sep: char) returns (parts: seq<string>)
    ensures parts == Split(s, Cutters(sep))
  {
    ghost var seps := Cutters(sep);
    parts := [];
    var start, i, inQuotes := 0, 0, false;
    assert s[0..0] == [] && s[0..] == s;
    GlueNothing(Split(s, seps));
    assert [] + Split(s, seps) == Split(s, seps);
    while i < |s|
      invariant 0 <= start <= i <= |s|
      invariant parts + Pending(s, start, i, if inQuotes then In else Out, seps) == Split(s, seps)
    {
      PendingNext(s, start, i, if inQuotes then In else Out, seps);
      if s[i] == '\\' {
        if inQuotes && i + 1 < |s| {
          PendingNext(s, start, i + 1, Escaped, seps);
          i := i + 1;
        } else if inQuotes {
          PendingEnd(s, start, Escaped, seps);
          PendingEnd(s, start, In, seps);
        }
      } else if s[i] == '"' {
        inQuotes := !inQuotes;
      } else if s[i] == sep && !inQuotes {
        assert parts + ([s[start..i]] + Pending(s, i + 1, i + 1, Out, seps)) == (parts + [s[start..i]]) + Pending(s, i + 1, i + 1, Out, seps);
        parts := parts + [s[start..i]];
        start := i + 1;
      }
      i := i + 1;
    }
    PendingEnd(s, start, if inQuotes then In else Out, seps);
    parts := parts + [s[start..]];
  }

  // ----- the header -------------------------------------------------------------------------------------------------

  /** Unicode white space trimming and lower-casing. */
  datatype Text = Text(trimSpace: string -> string, lower: string -> string)

  function TrimLeft(s: string): string {
    if s != [] && s[0] == '"' then TrimLeft(s[1..]) else s
  }

  function TrimRight(s: string): string {
    if s != [] && s[|s| - 1] == '"' then TrimRight(s[..|s| - 1]) else s
  }

  /** The pair has the key, ignoring case and surrounding space. */
  predicate Named(t: Text, pair: string, name: string) {
    '=' in pair && t.lower(t.trimSpace(pair[..FirstIndex(pair, '=')])) == name
  }

  function ValueOf(t: Text, pair: string): string
    requires '=' in pair
  {
    TrimRight(TrimLeft(t.trimSpace(pair[FirstIndex(pair, '=') + 1..])))
  }

  /** The value of the last pair with the key; empty when there is none. */
  function LastValue(t: Text, pairs: seq<string>, name: string): string {
    if pairs == [] then ""
    else if Named(t, pairs[|pairs| - 1], name) then ValueOf(t, pairs[|pairs| - 1])
    else LastValue(t, pairs[..|pairs| - 1], name)
  }

  /** The last pair with the key wins. */
  lemma {:induction false} LastWins(t: Text, pairs: seq<string>, name: string, i: nat)
    requires i < |pairs| && Named(t, pairs[i], name)
    requires forall j :: i < j < |pairs| ==> !Named(t, pairs[j], name)
    ensures LastValue(t, pairs, name) == ValueOf(t, pairs[i])
    decreases |pairs|
  {
    if i < |pairs| - 1 { LastWins(t, pairs[..|pairs| - 1], name, i); }
  }

  lemma {:induction false} NoneNamed(t: Text, pairs: seq<string>, name: string)
    requires forall i :: 0 <= i < |pairs| ==> !Named(t, pairs[i], name)
    ensures LastValue(t, pairs, name) == ""
    decreases |pairs|
  {
    if pairs != [] { NoneNamed(t, pairs[..|pairs| - 1], name); }
  }

  predicate AllQuotes(s: string) {
    forall i :: 0 <= i < |s| ==> s[i] == '"'
  }

  /** Trimming takes off quotes only, and all of them at both ends. */
  lemma TrimMeaning(s: string) returns (left: string, right: string)
    ensures AllQuotes(left) && AllQuotes(right)
    ensures s == left + TrimRight(TrimLeft(s)) + right
    ensures var kept := TrimRight(TrimLeft(s)); kept != [] ==> kept[0] != '"' && kept[|kept| - 1] != '"'
  {
    var rest := TrimLeft(s);
    TrimLeftMeaning(s);
    TrimRightMeaning(rest);
    left, right := s[..|s| - |rest|], rest[|TrimRight(rest)|..];
  }

  lemma {:induction false} TrimLeftMeaning(s: string)
    ensures |TrimLeft(s)| <= |s| && TrimLeft(s) == s[|s| - |TrimLeft(s)|..]
    ensures AllQuotes(s[..|s| - |TrimLeft(s)|])
    ensures TrimLeft(s) != [] ==> TrimLeft(s)[0] != '"'
    decreases |s|
  {
    if s != [] && s[0] == '"' {
      TrimLeftMeaning(s[1..]);
      assert s[..|s| - |TrimLeft(s)|] == [s[0]] + s[1..][..|s| - 1 - |TrimLeft(s)|];
    }
  }

  lemma {:induction false} TrimRightMeaning(s: string)
    ensures |TrimRight(s)| <= |s| && TrimRight(s) == s[..|TrimRight(s)|]
    ensures AllQuotes(s[|TrimRight(s)|..])
    ensures TrimRight(s) != [] ==> TrimRight(s)[|TrimRight(s)| - 1] != '"'
    decreases |s|
  {
    if s != [] && s[|s| - 1] == '"' {
      TrimRightMeaning(s[..|s| - 1]);
      assert s[|TrimRight(s)|..] == s[..|s| - 1][|TrimRight(s)|..] + [s[|s| - 1]];
    }
  }

  function FirstHop(raw: string): seq<string> {
    Split(Split(raw, {','})[0], {';'})
  }

  /** The encoded chain of the first hop, else its certificate; None when the header has neither. */
  function Source(t: Text, raw: string): Option<string> {
    var chain, cert := LastValue(t, FirstHop(raw), "chain"), LastValue(t, FirstHop(raw), "cert");
    if chain != "" then Some(chain) else if cert != "" then Some(cert) else None
  }

  // ----- what the header selects -----------------------------------------------------------------------------------

  /** The pair reads name=value: the key before the first '=', trimmed and lower-cased, the value trimmed of space and then of quotes. */
  ghost predicate Reads(t: Text, pair: string, name: string, value: string, at: nat, left: string, right: string) {
    && at < |pair| && pair[at] == '=' && '=' !in pair[..at]
    && t.lower(t.trimSpace(pair[..at])) == name
    && t.trimSpace(pair[at + 1..]) == left + value + right && AllQuotes(left) && AllQuotes(right)
    && (value != [] ==> value[0] != '"' && value[|value| - 1] != '"')
  }

  ghost predicate Says(t: Text, pair: string, name: string, value: string) {
    exists at: nat, left, right :: Reads(t, pair, name, value, at, left, right)
  }

  /** The last pair of that name says `value`; without any, the value is empty. */
  ghost predicate Last(t: Text, pairs: seq<string>, name: string, value: string) {
    if forall i, v :: 0 <= i < |pairs| ==> !Says(t, pairs[i], name, v) then value == []
    else exists i :: 0 <= i < |pairs| && Says(t, pairs[i], name, value) && forall j, v :: i < j < |pairs| ==> !Says(t, pairs[j], name, v)
  }

  /** The parts of `raw` at commas are `hops` and those of its first hop at semicolons are `pairs`. */
  ghost predicate Parted(raw: string, hops: seq<string>, pairs: seq<string>) {
    IsSplit(Out, {','}, raw, hops) && IsSplit(Out, {';'}, hops[0], pairs)
  }

  /** The value of the last pair named `first` if it is not empty, else that of the last pair named `second`, else nothing. */
  ghost predicate Picks(t: Text, pairs: seq<string>, first: string, second: string, source: Option<string>) {
    exists v, w :: Last(t, pairs, first, v) && Last(t, pairs, second, w)
      && source == if v != [] then Some(v) else if w != [] then Some(w) else None
  }

  /** The first hop's chain if there is one, else its certificate. */
  ghost predicate Selects(t: Text, raw: string, source: Option<string>) {
    exists hops, pairs :: Parted(raw, hops, pairs) && Picks(t, pairs, "chain", "cert", source)
  }

  lemma {:induction false} TrimLeftAll(left: string, rest: string)
    requires AllQuotes(left)
    ensures TrimLeft(left + rest) == TrimLeft(rest)
    decreases |left|
  {
    if left == [] {
      assert left + rest == rest;
    } else {
      assert (left + rest)[1..] == left[1..] + rest;
      TrimLeftAll(left[1..], rest);
    }
  }

  lemma {:induction false} TrimRightAll(rest: string, right: string)
    requires AllQuotes(right)
    ensures TrimRight(rest + right) == TrimRight(rest)
    decreases |right|
  {
    if right == [] {
      assert rest + right == rest;
    } else {
      assert (rest + right)[..|rest + right| - 1] == rest + right[..|right| - 1];
      TrimRightAll(rest, right[..|right| - 1]);
    }
  }

  lemma TrimUnique(left: string, value: string, right: string)
    requires AllQuotes(left) && AllQuotes(right) && (value != [] ==> value[0] != '"' && value[|value| - 1] != '"')
    ensures TrimRight(TrimLeft(left + value + right)) == value
  {
    assert left + value + right == left + (value + right);
    TrimLeftAll(left, value + right);
    if value == [] {
      assert value + right == right + [] && [] + right == right;
      TrimLeftAll(right, []);
    } else {
      TrimRightAll(value, right);
    }
  }

  /** A pair says exactly one thing, under exactly one name. */
  lemma SaysIff(t: Text, pair: string, name: string, value: string)
    ensures Says(t, pair, name, value) <==> Named(t, pair, name) && value == ValueOf(t, pair)
  {
    if at: nat, left, right :| Reads(t, pair, name, value, at, left, right) {
      assert FirstIndex(pair, '=') == at by { assert forall j :: 0 <= j < at ==> pair[j] == pair[..at][j]; }
      TrimUnique(left, value, right);
    }
    if Named(t, pair, name) && value == ValueOf(t, pair) {
      var at := FirstIndex(pair, '=');
      var left, right := TrimMeaning(t.trimSpace(pair[at + 1..]));
      assert Reads(t, pair, name, value, at, left, right);
    }
  }

  lemma {:induction false} LastIs(t: Text, pairs: seq<string>, name: string)
    ensures Last(t, pairs, name, LastValue(t, pairs, name))
  {
    forall i, v | 0 <= i < |pairs| ensures Says(t, pairs[i], name, v) <==> Named(t, pairs[i], name) && v == ValueOf(t, pairs[i]) {
      SaysIff(t, pairs[i], name, v);
    }
    if forall i :: 0 <= i < |pairs| ==> !Named(t, pairs[i], name) {
      NoneNamed(t, pairs, name);
    } else {
      var i := LastNamed(t, pairs, name);
      LastWins(t, pairs, name, i);
      assert Says(t, pairs[i], name, ValueOf(t, pairs[i]));
    }
  }

  lemma {:induction false} LastNamed(t: Text, pairs: seq<string>, name: string) returns (i: nat)
    requires exists k :: 0 <= k < |pairs| && Named(t, pairs[k], name)
    ensures i < |pairs| && Named(t, pairs[i], name) && forall j :: i < j < |pairs| ==> !Named(t, pairs[j], name)
    decreases |pairs|
  {
    var n := |pairs| - 1;
    if Named(t, pairs[n], name) {
      i := n;
    } else {
      i := LastNamed(t, pairs[..n], name);
    }
  }

  lemma PicksLast(t: Text, pairs: seq<string>, first: string, second: string)
    ensures var v, w := LastValue(t, pairs, first), LastValue(t, pairs, second);
            Picks(t, pairs, first, second, if v != [] then Some(v) else if w != [] then Some(w) else None)
  {
    LastIs(t, pairs, first);
    LastIs(t, pairs, second);
  }

  lemma SplitsParted(raw: string)
    ensures var hops := Split(raw, {','}); Parted(raw, hops, Split(hops[0], {';'}))
  {
    var hops := Split(raw, {','});
    SplitFromIsSplit(Out, {','}, raw);
    SplitFromIsSplit(Out, {';'}, hops[0]);
  }

  lemma SourceSelects(t: Text, raw: string)
    ensures Selects(t, raw, Source(t, raw))
  {
    SplitsParted(raw);
    PicksLast(t, Split(Split(raw, {','})[0], {';'}), "chain", "cert");
  }

  lemma LastOnce(t: Text, pairs: seq<string>, name: string, v: string)
    requires Last(t, pairs, name, v)
    ensures v == LastValue(t, pairs, name)
  {
    forall i, u | 0 <= i < |pairs| ensures Says(t, pairs[i], name, u) <==> Named(t, pairs[i], name) && u == ValueOf(t, pairs[i]) {
      SaysIff(t, pairs[i], name, u);
    }
    if forall i, u :: 0 <= i < |pairs| ==> !Says(t, pairs[i], name, u) {
      assert forall i :: 0 <= i < |pairs| && Named(t, pairs[i], name) ==> Says(t, pairs[i], name, ValueOf(t, pairs[i]));
      NoneNamed(t, pairs, name);
    } else {
      var i :| 0 <= i < |pairs| && Says(t, pairs[i], name, v) && forall j, u :: i < j < |pairs| ==> !Says(t, pairs[j], name, u);
      assert forall j :: i < j < |pairs| && Named(t, pairs[j], name) ==> Says(t, pairs[j], name, ValueOf(t, pairs[j]));
      LastWins(t, pairs, name, i);
    }
  }

  lemma PicksOnce(t: Text, pairs: seq<string>, first: string, second: string, source: Option<string>)
    ensures var v, w := LastValue(t, pairs, first), LastValue(t, pairs, second);
            Picks(t, pairs, first, second, source) ==> source == if v != [] then Some(v) else if w != [] then Some(w) else None
  {
    forall name, v | Last(t, pairs, name, v) ensures v == LastValue(t, pairs, name) {
      LastOnce(t, pairs, name, v);
    }
  }

  /** A header selects one thing. */
  lemma SelectsIff(t: Text, raw: string, source: Option<string>)
    ensures Selects(t, raw, source) <==> source == Source(t, raw)
  {
    SourceSelects(t, raw);
    SplitsParted(raw);
    if hops, pairs :| Parted(raw, hops, pairs) && Picks(t, pairs, "chain", "cert", source) {
      SplitUnique(Out, {','}, raw, hops, Split(raw, {','}));
      SplitUnique(Out, {';'}, hops[0], pairs, FirstHop(raw));
      PicksOnce(t, pairs, "chain", "cert", source);
    }
  }

  method ParseXFCC(t: Text, raw: string) returns (source: Option<string>)
    ensures source == Source(t, raw) && Selects(t, raw, source)
  {
    var elements := SplitUnquoted(raw, ',');
    var pairs := SplitUnquoted(elements[0], ';');
    var cert, chain := "", "";
    var i := 0;
    while i < |pairs|
      invariant 0 <= i <= |pairs|
      invariant cert == LastValue(t, pairs[..i], "cert") && chain == LastValue(t, pairs[..i], "chain")
    {
      assert pairs[..i + 1][..i] == pairs[..i];
      var pair := pairs[i];
      i := i + 1;
      if '=' in pair {
        var at := FirstIndex(pair, '=');
        var value := TrimRight(TrimLeft(t.trimSpace(pair[at + 1..])));
        var key := t.lower(t.trimSpace(pair[..at]));
        if key == "cert" {
          cert := value;
        } else if key == "chain" {
          chain := value;
        }
      }
    }
    assert pairs[..i] == pairs;
    SourceSelects(t, raw);
    if chain != "" {
      source := Some(chain);
    } else if cert != "" {
      source := Some(cert);
    } else {
      source := None;
    }
  }

  /** The pairs looked at are the first pieces of one pass over the whole header. */
  lemma FirstHopIsPrefix(raw: string)
    ensures FirstHop(raw) <= Split(raw, {',', ';'})
  {
    TwoLevels(raw, ',', ';');
  }

  lemma {:induction false} SplitAppend(m: Mode, seps: set<char>, a: string, sep: char, b: string)
    requires Plain(seps) && sep in seps && Scan(m, a) == Out
    ensures SplitFrom(m, seps, a + [sep] + b) == SplitFrom(m, seps, a) + SplitFrom(Out, seps, b)
    decreases |a|
  {
    if a == [] {
      assert a + [sep] + b == [sep] + b && ([sep] + b)[1..] == b;
    } else {
      var more := SplitFrom(Out, seps, b);
      assert (a + [sep] + b)[1..] == a[1..] + [sep] + b;
      SplitAppend(Step(m, a[0]), seps, a[1..], sep, b);
      GlueAppend([a[0]], SplitFrom(Step(m, a[0]), seps, a[1..]), more);
      assert [[]] + (SplitFrom(Step(m, a[0]), seps, a[1..]) + more) == ([[]] + SplitFrom(Step(m, a[0]), seps, a[1..])) + more;
    }
  }

  /** Whatever later hops append after a header with closed quotes, the source stays the same. */
  lemma LaterHopsIgnored(t: Text, raw: string, later: string)
    requires Scan(Out, raw) == Out
    ensures Source(t, raw + [','] + later) == Source(t, raw)
  {
    SplitAppend(Out, {','}, raw, ',', later);
  }
}
