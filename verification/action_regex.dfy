/** The tool-call extraction of the single-shot agent: the first match of the
    regular expression `(?s)\{ "name": ".*?" \}` in a model response, under
    Go's leftmost-first semantics with a lazy `.*?`. */
module ActionRegex {
  import opened Wrappers
  import opened Strings

  /** The text the pattern starts with: `{ "name": "`. */
  const Opener: string := "{ \"name\": \""
  /** The text the pattern ends with: `" }`. */
  const Closer: string := "\" }"

  /** A half-open range `[start, end)` of a response. */
  datatype Span = Span(start: nat, end: nat)

  /** `s[i..e]` matches the pattern: the opener at `i`, any text at all (the
      `(?s)` flag lets `.` cross lines), and the closer ending at `e`. */
  predicate IsMatch(s: string, i: nat, e: nat) {
    && OccursAt(s, Opener, i)
    && i + |Opener| + |Closer| <= e <= |s|
    && OccursAt(s, Closer, e - |Closer|)
  }

  /** The match `FindStringSubmatch` reports: among all matches, the one
      starting leftmost, and of those the shortest (the lazy `.*?`). */
  function FindAction(s: string): (r: Option<Span>)
    ensures r.Some? ==> IsMatch(s, r.value.start, r.value.end)
    ensures r.Some? ==> forall i: nat, e: nat :: IsMatch(s, i, e) ==>
      r.value.start < i || (r.value.start == i && r.value.end <= e)
    ensures r.None? <==> forall i: nat, e: nat :: !IsMatch(s, i, e)
  {
    match FindFrom(s, Opener, 0)
    case None => None
    case Some(i) =>
      match FindFrom(s, Closer, i + |Opener|)
      case None =>
        NoCloserNoMatch(s, i);
        None
      case Some(j) =>
        assert IsMatch(s, i, j + |Closer|);
        Some(Span(i, j + |Closer|))
  }

  /** If no closer follows the leftmost opener, no later opener can be
      followed by one either. */
  lemma NoCloserNoMatch(s: string, i: nat)
    requires FindFrom(s, Opener, 0) == Some(i)
    requires FindFrom(s, Closer, i + |Opener|).None?
    ensures forall i': nat, e: nat :: !IsMatch(s, i', e)
  {
    forall i': nat, e: nat
      ensures !IsMatch(s, i', e)
    {
      if OccursAt(s, Opener, i') && i' + |Opener| + |Closer| <= e {
        assert i <= i';
        assert !OccursAt(s, Closer, e - |Closer|);
      }
    }
  }

  /** The matched text of a response, as the source hands it to the decoder. */
  function ActionText(s: string, sp: Span): (t: string)
    requires IsMatch(s, sp.start, sp.end)
    ensures HasPrefix(t, Opener) && HasSuffix(t, Closer)
  {
    var t := s[sp.start..sp.end];
    assert |t| >= |Opener| + |Closer|;
    assert t[..|Opener|] == s[sp.start..sp.start + |Opener|];
    assert t[|t| - |Closer|..] == s[sp.end - |Closer|..sp.end];
    t
  }

  /** The matched text never holds a closer before its own end: between the
      opener and the final `" }` there is no other `" }`. */
  lemma MatchStopsAtFirstCloser(s: string)
    requires FindAction(s).Some?
    ensures var sp := FindAction(s).value;
      forall p: nat :: sp.start + |Opener| <= p < sp.end - |Closer| ==> !OccursAt(s, Closer, p)
  {
    var sp := FindAction(s).value;
    forall p: nat | sp.start + |Opener| <= p < sp.end - |Closer| && OccursAt(s, Closer, p)
      ensures false
    {
      assert IsMatch(s, sp.start, p + |Closer|);
    }
  }

  /** The call format the prompt itself prescribes, `{ "name": …, "arguments":
      { …: "…" } }`, ends in `" } }`; the match stops at least two characters
      short of it, so the outer object's closing brace is never extracted. */
  lemma PrescribedFormatIsCutShort(s: string)
    requires HasPrefix(s, Opener) && HasSuffix(s, "\" } }") && |s| >= |Opener| + 5
    ensures FindAction(s).Some?
    ensures FindAction(s).value.start == 0 && FindAction(s).value.end <= |s| - 2
  {
    assert s[|s| - 5..|s| - 2] == Closer by {
      assert s[|s| - 5..] == "\" } }";
    }
    assert IsMatch(s, 0, |s| - 2);
  }

  /** A concrete instance: a web search call with one argument is truncated
      after the argument object. */
  lemma WebSearchCallIsTruncated()
    ensures var s := Opener + "web_search\", \"arguments\": { \"query\": \"x" + "\" } }";
      && FindAction(s).Some?
      && ActionText(s, FindAction(s).value) != s
  {
    var s := Opener + "web_search\", \"arguments\": { \"query\": \"x" + "\" } }";
    FramedText(Opener, "web_search\", \"arguments\": { \"query\": \"x", "\" } }");
    PrescribedFormatIsCutShort(s);
  }

  lemma FramedText(a: string, m: string, z: string)
    ensures HasPrefix(a + m + z, a) && HasSuffix(a + m + z, z)
  {
    assert (a + m + z)[..|a|] == a;
    assert (a + m + z)[|a + m + z| - |z|..] == z;
  }
}
