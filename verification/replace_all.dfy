/** The regex crate's `Regex::replace_all` with a replacement closure, as the
    line rewriter uses it for both of its passes.

A pattern is given by `find`, which says whether a match STARTS at the front
of a text and, if so, how long it is and what it captured. Scanning goes left
to right; the leftmost match wins; after a match, scanning resumes right after
it, so matches never overlap. Text outside the matches is copied unchanged.
The closure may panic; the first panic, in left-to-right order, aborts the
whole call.
 */
module Replace {
  import opened Wrappers

  datatype Found<C> = Found(len: nat, caps: C)

  /** Every match lies within the text and is non-empty (neither pattern of
      the line rewriter matches the empty string). */
  ghost predicate FindsPrefixes<C(!new)>(find: string -> Option<Found<C>>) {
    forall t :: find(t).Some? ==> 0 < find(t).value.len <= |t|
  }

  /** `Prefix(p, r)` is `r` with `p` put in front of a returned text. */
  function Prefix(p: string, r: Outcome<string>): (o: Outcome<string>)
    ensures o.Panic? <==> r.Panic?
    ensures r.Panic? ==> o == r
  {
    match r
    case Value(s) => Value(p + s)
    case Panic(m) => Panic(m)
  }

  /** A replacement `r` followed by the outcome `rest` of the text after
      it: a panic of `r` happens first and is the outcome. */
  function Splice(r: Outcome<string>, rest: Outcome<string>): Outcome<string> {
    match r
    case Panic(m) => Panic(m)
    case Value(t) => Prefix(t, rest)
  }

  function ReplaceAll<C(!new)>(s: string, find: string -> Option<Found<C>>,
                               repl: (string, C) -> Outcome<string>): Outcome<string>
    requires FindsPrefixes(find)
    decreases |s|
  {
    if s == [] then Value([])
    else
      match find(s)
      case None => Prefix([s[0]], ReplaceAll(s[1..], find, repl))
      case Some(f) =>
        match repl(s[..f.len], f.caps)
        case Panic(m) => Panic(m)
        case Value(r) => Prefix(r, ReplaceAll(s[f.len..], find, repl))
  }

  /** No match starts at position `i` of `s` or later. */
  predicate NoMatchFrom<C(!new)>(s: string, find: string -> Option<Found<C>>, i: nat)
    requires i <= |s|
  {
    forall j :: i <= j < |s| ==> find(s[j..]).None?
  }

  /** The leftmost match of `s` starts at `i`. */
  predicate LeftmostAt<C(!new)>(s: string, find: string -> Option<Found<C>>, i: nat)
    requires i < |s|
  {
    find(s[i..]).Some? && forall j :: 0 <= j < i ==> find(s[j..]).None?
  }

  lemma PrefixPrefix(a: string, b: string, r: Outcome<string>)
    ensures Prefix(a, Prefix(b, r)) == Prefix(a + b, r)
  {
    if r.Value? {
      assert a + (b + r.value) == (a + b) + r.value;
    }
  }

  /** Text put in front of a spliced outcome goes in front of the
      replacement, unless the replacement panicked. */
  lemma PrefixSplice(p: string, r: Outcome<string>, rest: Outcome<string>)
    ensures r.Panic? ==> Prefix(p, Splice(r, rest)) == r
    ensures r.Value? ==> Prefix(p, Splice(r, rest)) == Prefix(p + r.value, rest)
  {
    if r.Value? {
      PrefixPrefix(p, r.value, rest);
    }
  }

  /** Text before the first match is copied verbatim, and the rest is
      rewritten on its own. */
  lemma {:induction false} CopyUntil<C(!new)>(s: string, find: string -> Option<Found<C>>,
                                              repl: (string, C) -> Outcome<string>, i: nat)
    requires FindsPrefixes(find) && i <= |s|
    requires forall j :: 0 <= j < i ==> find(s[j..]).None?
    ensures ReplaceAll(s, find, repl) == Prefix(s[..i], ReplaceAll(s[i..], find, repl))
    decreases i
  {
    if i == 0 {
      assert s[..0] == [] && s[0..] == s;
      var r := ReplaceAll(s, find, repl);
      if r.Value? {
        assert [] + r.value == r.value;
      }
    } else {
      assert find(s[0..]).None? && s[0..] == s;
      var t := s[1..];
      assert forall j :: 0 <= j < i - 1 ==> t[j..] == s[j + 1..];
      CopyUntil(t, find, repl, i - 1);
      assert t[i - 1..] == s[i..];
      PrefixPrefix([s[0]], t[..i - 1], ReplaceAll(s[i..], find, repl));
      assert [s[0]] + t[..i - 1] == s[..i];
    }
  }

  /** A text in which no match starts is returned unchanged. */
  lemma NoMatchUnchanged<C(!new)>(s: string, find: string -> Option<Found<C>>,
                                  repl: (string, C) -> Outcome<string>)
    requires FindsPrefixes(find) && NoMatchFrom(s, find, 0)
    ensures ReplaceAll(s, find, repl) == Value(s)
  {
    CopyUntil(s, find, repl, |s|);
    assert s[..|s|] == s && s[|s|..] == [];
    assert s + [] == s;
  }

  /** A match at the very front is replaced first; the rest is rewritten on
      its own. */
  lemma FrontMatch<C(!new)>(s: string, find: string -> Option<Found<C>>,
                            repl: (string, C) -> Outcome<string>)
    requires FindsPrefixes(find) && s != [] && find(s).Some?
    ensures ReplaceAll(s, find, repl) ==
              Splice(repl(s[..find(s).value.len], find(s).value.caps), ReplaceAll(s[find(s).value.len..], find, repl))
  {
  }

  /** The front-match step stated on the closure's outcome: a panic aborts
      the call, a value is put in front of the rewritten rest. */
  lemma FrontStep<C(!new)>(u: string, find: string -> Option<Found<C>>,
                           repl: (string, C) -> Outcome<string>, n: nat, caps: C, r: Outcome<string>)
    requires FindsPrefixes(find) && u != [] && find(u) == Some(Found(n, caps))
    requires r == repl(u[..n], caps)
    ensures n <= |u|
    ensures r.Panic? ==> ReplaceAll(u, find, repl) == r
    ensures r.Value? ==> ReplaceAll(u, find, repl) == Prefix(r.value, ReplaceAll(u[n..], find, repl))
  {
  }

  /** Everything before the leftmost match is copied verbatim, the match is
      replaced by what the closure returns for it (and a panic there aborts
      the call), and scanning resumes right after the match. */
  lemma LeftmostMatch<C(!new)>(s: string, find: string -> Option<Found<C>>,
                               repl: (string, C) -> Outcome<string>, i: nat)
    requires FindsPrefixes(find) && i < |s| && LeftmostAt(s, find, i)
    ensures i + find(s[i..]).value.len <= |s|
    ensures var f := find(s[i..]).value; var r := repl(s[i..i + f.len], f.caps);
      && (r.Panic? ==> ReplaceAll(s, find, repl) == r)
      && (r.Value? ==> ReplaceAll(s, find, repl) == Prefix(s[..i] + r.value, ReplaceAll(s[i + f.len..], find, repl)))
  {
    var u := s[i..];
    var f := find(u).value;
    var r := repl(s[i..i + f.len], f.caps);
    var after := ReplaceAll(s[i + f.len..], find, repl);
    CopyUntil(s, find, repl, i);
    assert u[..f.len] == s[i..i + f.len] && u[f.len..] == s[i + f.len..];
    FrontMatch(u, find, repl);
    PrefixSplice(s[..i], r, after);
  }

  /** A panic of the closure on the leftmost match aborts the whole call
      with that panic. */
  lemma LeftmostPanic<C(!new)>(s: string, find: string -> Option<Found<C>>,
                               repl: (string, C) -> Outcome<string>, i: nat, n: nat, caps: C, msg: string)
    requires FindsPrefixes(find) && i < |s| && LeftmostAt(s, find, i)
    requires find(s[i..]) == Some(Found(n, caps)) && i + n <= |s|
    requires repl(s[i..i + n], caps) == Panic(msg)
    ensures ReplaceAll(s, find, repl) == Panic(msg)
  {
    CopyUntil(s, find, repl, i);
    var u := s[i..];
    assert u[..n] == s[i..i + n];
    FrontStep(u, find, repl, n, caps, Panic(msg));
  }
}
