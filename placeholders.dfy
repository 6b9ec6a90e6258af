/** The placeholders `💱{name}` of a print text: the matcher that stands for
    the regular expression parsePrint compiles (internal/parser/parser.go:305),
    and the replacement PrintNode.Evaluate performs with strings.Replace. */
module Placeholders {
  import opened Text
  import opened Lexer

  /** The bytes a placeholder name may contain: [a-zA-Z0-9_]. */
  predicate IsNameByte(b: Byte)
  {
    ('a' <= b <= 'z') || ('A' <= b <= 'Z') || ('0' <= b <= '9') || b == '_'
  }

  /** End of the maximal run of name bytes starting at `i`. */
  function NameEnd(s: Bytes, i: nat): (j: nat)
    requires i <= |s|
    decreases |s| - i
    ensures i <= j <= |s|
    ensures forall k :: i <= k < j ==> IsNameByte(s[k])
    ensures j < |s| ==> !IsNameByte(s[j])
  {
    if i < |s| && IsNameByte(s[i]) then NameEnd(s, i + 1) else i
  }

  /** A match of `💱\{([a-zA-Z0-9_]+)\}` starts at `i`. The name class
      excludes `}`, so the greedy run of name bytes is the only candidate. */
  predicate PlaceholderAt(s: Bytes, i: nat)
  {
    StartsWith(s, i, InterpolationOpen)
    && var j := NameEnd(s, i + |InterpolationOpen|);
       i + |InterpolationOpen| < j < |s| && s[j] == '}'
  }

  /** Where the placeholder at `i` ends (one past its `}`). */
  function PlaceholderEnd(s: Bytes, i: nat): (e: nat)
    requires PlaceholderAt(s, i)
    ensures i + |InterpolationOpen| + 2 <= e <= |s|
  {
    NameEnd(s, i + |InterpolationOpen|) + 1
  }

  /** The captured name of the placeholder at `i`. */
  function PlaceholderName(s: Bytes, i: nat): (name: Bytes)
    requires PlaceholderAt(s, i)
    ensures name != [] && forall k :: 0 <= k < |name| ==> IsNameByte(name[k])
  {
    s[i + |InterpolationOpen|..PlaceholderEnd(s, i) - 1]
  }

  /** The captured names of all matches from `i` on, leftmost first and
      non-overlapping, as FindAllStringSubmatch reports them. */
  function Matches(s: Bytes, i: nat): seq<Bytes>
    decreases |s| - i
  {
    if i >= |s| then []
    else if PlaceholderAt(s, i) then [PlaceholderName(s, i)] + Matches(s, PlaceholderEnd(s, i))
    else Matches(s, i + 1)
  }

  /** `names` without its repetitions, first occurrences kept in order. */
  function Dedup(names: seq<Bytes>): (r: seq<Bytes>)
    ensures forall n :: n in r <==> n in names
    ensures forall a, b :: 0 <= a < b < |r| ==> r[a] != r[b]
  {
    if names == [] then []
    else
      var rest := Dedup(names[..|names| - 1]);
      var last := names[|names| - 1];
      if last in rest then rest else rest + [last]
  }

  /** The Variables set parsePrint records: the distinct captured names. */
  function Variables(text: Bytes): seq<Bytes>
  {
    Dedup(Matches(text, 0))
  }

  /** The text a placeholder for `name` is written as. */
  function Placeholder(name: Bytes): Bytes
  {
    InterpolationOpen + name + "}"
  }

  /** strings.Replace(s, p, r, -1): every non-overlapping occurrence of `p`,
      scanning left to right, replaced by `r`. */
  function ReplaceAll(s: Bytes, p: Bytes, r: Bytes): Bytes
    requires p != []
    decreases |s|
  {
    if s == [] then []
    else if StartsWith(s, 0, p) then r + ReplaceAll(s[|p|..], p, r)
    else [s[0]] + ReplaceAll(s[1..], p, r)
  }

  /** A text in which `p` does not occur is left as it is. */
  lemma {:induction false} ReplaceAllAbsent(s: Bytes, p: Bytes, r: Bytes)
    requires p != [] && !Contains(s, p)
    ensures ReplaceAll(s, p, r) == s
    decreases |s|
  {
    if s != [] {
      assert !StartsWith(s, 0, p);
      forall i: nat | i <= |s[1..]| && StartsWith(s[1..], i, p)
        ensures StartsWith(s, i + 1, p)
      {
        assert s[1..][i..i + |p|] == s[i + 1..i + 1 + |p|];
      }
      ReplaceAllAbsent(s[1..], p, r);
    }
  }

  /** No byte inside a placeholder after its first one is the lead byte of
      the marker, so a match never overlaps the start of another. */
  lemma InsideNoLead(s: Bytes, i: nat, k: nat)
    requires PlaceholderAt(s, i) && i < k < PlaceholderEnd(s, i)
    ensures !PlaceholderAt(s, k)
  {
    if k < i + |InterpolationOpen| {
      assert s[k] == s[i..i + |InterpolationOpen|][k - i] == InterpolationOpen[k - i];
    } else {
      assert IsNameByte(s[k]) || s[k] == '}';
    }
    assert s[k] != InterpolationOpen[0];
  }

  /** Every name the matcher reports comes from a placeholder at or after `i`. */
  lemma {:induction false} MatchesSound(s: Bytes, i: nat, name: Bytes) returns (k: nat)
    requires name in Matches(s, i)
    ensures i <= k && PlaceholderAt(s, k) && PlaceholderName(s, k) == name
    decreases |s| - i
  {
    if PlaceholderAt(s, i) && name == PlaceholderName(s, i) {
      k := i;
    } else if PlaceholderAt(s, i) {
      k := MatchesSound(s, PlaceholderEnd(s, i), name);
    } else {
      k := MatchesSound(s, i + 1, name);
    }
  }

  /** Every placeholder at or after `i` is reported by the matcher. */
  lemma {:induction false} MatchesComplete(s: Bytes, i: nat, k: nat)
    requires i <= k && PlaceholderAt(s, k)
    ensures PlaceholderName(s, k) in Matches(s, i)
    decreases |s| - i
  {
    if k != i {
      if PlaceholderAt(s, i) {
        var e := PlaceholderEnd(s, i);
        if k < e {
          InsideNoLead(s, i, k);
        }
        MatchesComplete(s, e, k);
      } else {
        MatchesComplete(s, i + 1, k);
      }
    }
  }

  /** parsePrint's record of a text: it is interpolated iff some placeholder
      occurs, and its variables are exactly the captured names, each once. */
  lemma VariablesExact(text: Bytes)
    ensures Variables(text) != [] <==> exists k: nat :: PlaceholderAt(text, k)
    ensures forall name :: name in Variables(text) <==> exists k: nat :: PlaceholderAt(text, k) && PlaceholderName(text, k) == name
    ensures forall a, b :: 0 <= a < b < |Variables(text)| ==> Variables(text)[a] != Variables(text)[b]
  {
    forall name | name in Variables(text)
      ensures exists k: nat :: PlaceholderAt(text, k) && PlaceholderName(text, k) == name
    {
      var k := MatchesSound(text, 0, name);
    }
    forall k: nat | PlaceholderAt(text, k)
      ensures PlaceholderName(text, k) in Variables(text)
    {
      MatchesComplete(text, 0, k);
    }
    if Variables(text) != [] {
      assert Variables(text)[0] in Variables(text);
    }
  }

  /** A text without the marker `💱{` holds no placeholder. */
  lemma NoMarkerNoPlaceholder(text: Bytes)
    requires !Contains(text, InterpolationOpen)
    ensures Variables(text) == []
  {
    VariablesExact(text);
  }
}
