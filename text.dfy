/**
 * The string operations the relay applies to chat text: `str.startswith`
 * and `str.split(" ", maxsplit)`, and the `/w <user> <text>` whisper syntax
 * built on them.
 */
module Text {
  import opened Wrappers

  /** `s.startswith(prefix)`. */
  predicate StartsWith(s: string, prefix: string)
    ensures StartsWith(s, prefix) <==> |prefix| <= |s| && s == prefix + s[|prefix|..]
  {
    |prefix| <= |s| && s[..|prefix|] == prefix
  }

  predicate NoSpace(s: string)
  {
    forall i :: 0 <= i < |s| ==> s[i] != ' '
  }

  /** Index of the first space in `s` at or after position `k`, if any. */
  function FindSpaceFrom(s: string, k: nat): Option<nat>
    requires k <= |s|
    decreases |s| - k
  {
    if k == |s| then None
    else if s[k] == ' ' then Some(k)
    else FindSpaceFrom(s, k + 1)
  }

  /** The scan from `k` finds the first space at or after `k`, or reports that there is none. */
  lemma {:induction false} FindSpaceFromSpec(s: string, k: nat)
    requires k <= |s|
    ensures var r := FindSpaceFrom(s, k);
            (r.None? <==> forall j :: k <= j < |s| ==> s[j] != ' ') &&
            (r.Some? ==> k <= r.value < |s| && s[r.value] == ' ' && forall j :: k <= j < r.value ==> s[j] != ' ')
    decreases |s| - k
  {
    if k < |s| && s[k] != ' ' {
      FindSpaceFromSpec(s, k + 1);
    }
  }

  /** Index of the first space in `s`, if any. */
  function FindSpace(s: string): Option<nat>
  {
    FindSpaceFrom(s, 0)
  }

  /** A space that `FindSpace` reports is inside the string. */
  lemma FindSpaceAt(s: string)
    ensures FindSpace(s).Some? ==> FindSpace(s).value < |s| && s[FindSpace(s).value] == ' '
  {
    FindSpaceFromSpec(s, 0);
  }

  /** `FindSpace` finds a space exactly when there is one, and it is the first. */
  lemma FindSpaceSpec(s: string)
    ensures FindSpace(s).None? <==> NoSpace(s)
    ensures FindSpace(s).Some? ==> FindSpace(s).value < |s| && s[FindSpace(s).value] == ' '
    ensures FindSpace(s).Some? ==> NoSpace(s[..FindSpace(s).value])
  {
    FindSpaceFromSpec(s, 0);
  }

  /**
   * `s.split(" ", maxsplit)`: cut at the first `maxsplit` spaces, leaving
   * the rest of the string, spaces included, as the last part.
   */
  function Split(s: string, maxsplit: nat): (parts: seq<string>)
    ensures 1 <= |parts| <= maxsplit + 1
    decreases maxsplit
  {
    if maxsplit == 0 then [s]
    else
      FindSpaceAt(s);
      match FindSpace(s)
      case None => [s]
      case Some(i) => [s[..i]] + Split(s[i + 1..], maxsplit - 1)
  }

  /** Splitting at a first space puts the text before it in front of the split of the text after it. */
  lemma SplitFirst(s: string, maxsplit: nat, i: nat)
    requires maxsplit > 0 && i < |s| && FindSpace(s) == Some(i)
    ensures Split(s, maxsplit) == [s[..i]] + Split(s[i + 1..], maxsplit - 1)
  {
  }

  /** Every part but the last is free of spaces. */
  lemma {:induction false} SplitParts(s: string, maxsplit: nat)
    ensures forall k :: 0 <= k < |Split(s, maxsplit)| - 1 ==> NoSpace(Split(s, maxsplit)[k])
    decreases maxsplit
  {
    FindSpaceSpec(s);
    var found := FindSpace(s);
    if maxsplit > 0 && found.Some? {
      var i := found.value;
      var rest := Split(s[i + 1..], maxsplit - 1);
      SplitFirst(s, maxsplit, i);
      SplitParts(s[i + 1..], maxsplit - 1);
      forall k | 0 <= k < |rest| ensures NoSpace(([s[..i]] + rest)[k]) {
        if k > 0 {
          assert ([s[..i]] + rest)[k] == rest[k - 1];
        }
      }
    }
  }

  /** The last part is free of spaces when fewer than `maxsplit` cuts were made. */
  lemma {:induction false} SplitLast(s: string, maxsplit: nat)
    ensures var parts := Split(s, maxsplit);
            |parts| <= maxsplit ==> NoSpace(parts[|parts| - 1])
    decreases maxsplit
  {
    var parts := Split(s, maxsplit);
    if |parts| <= maxsplit {
      FindSpaceSpec(s);
      match FindSpace(s)
      case None =>
        assert parts == [s];
      case Some(i) =>
        var rest := Split(s[i + 1..], maxsplit - 1);
        SplitFirst(s, maxsplit, i);
        SplitLast(s[i + 1..], maxsplit - 1);
        assert parts[|parts| - 1] == rest[|rest| - 1];
    }
  }

  /** `" ".join(parts)`. */
  function Join(parts: seq<string>): string
  {
    if |parts| <= 1 then (if parts == [] then "" else parts[0])
    else parts[0] + " " + Join(parts[1..])
  }

  /** Joining a part in front of at least one other part puts one space between them. */
  lemma JoinCons(a: string, rest: seq<string>)
    requires rest != []
    ensures Join([a] + rest) == a + " " + Join(rest)
  {
    assert ([a] + rest)[1..] == rest;
  }

  /** A string is the text before a space, the space, and the text after it. */
  lemma CutAt(s: string, i: nat)
    requires i < |s| && s[i] == ' '
    ensures s == s[..i] + " " + s[i + 1..]
  {
  }

  /** Splitting loses nothing: joining the parts with single spaces gives the string back. */
  lemma {:induction false} JoinSplit(s: string, maxsplit: nat)
    ensures Join(Split(s, maxsplit)) == s
    decreases maxsplit
  {
    var parts := Split(s, maxsplit);
    if maxsplit == 0 {
      assert parts == [s];
    } else {
      FindSpaceAt(s);
      match FindSpace(s)
      case None =>
        assert parts == [s];
      case Some(i) =>
        var tail := s[i + 1..];
        var rest := Split(tail, maxsplit - 1);
        SplitFirst(s, maxsplit, i);
        JoinCons(s[..i], rest);
        JoinSplit(tail, maxsplit - 1);
        CutAt(s, i);
    }
  }

  /** Outcome of the whisper syntax on a message that starts with "/w ". */
  datatype WhisperCommand = Targeted(target: string, text: string) | BadFormat

  /** `parts = message.split(" ", 2)`; three parts name a target and the text. */
  function ParseWhisper(message: string): (r: WhisperCommand)
    ensures r.Targeted? ==> NoSpace(r.target)
  {
    SplitParts(message, 2);
    var parts := Split(message, 2);
    if |parts| >= 3 then Targeted(parts[1], parts[2]) else BadFormat
  }

  /** The first space of `a + " " + b`, for `a` without spaces, is the one after `a`. */
  lemma FirstSpaceAfter(a: string, b: string)
    ensures !NoSpace(a + " " + b)
    ensures NoSpace(a) ==> FindSpace(a + " " + b) == Some(|a|)
  {
    var s := a + " " + b;
    FindSpaceSpec(s);
    assert s[|a|] == ' ';
    if NoSpace(a) {
      assert s[..|a|] == a;
    }
  }

  /** On a message that starts with "/w ", the parse is decided by the first space after the prefix. */
  lemma ParseWhisperTail(message: string)
    requires StartsWith(message, "/w ")
    ensures var after := message[3..];
            match FindSpace(after)
            case None => ParseWhisper(message) == BadFormat
            case Some(i) => i < |after| && ParseWhisper(message) == Targeted(after[..i], after[i + 1..])
  {
    var after := message[3..];
    FindSpaceSpec(after);
    assert message == "/w" + " " + after;
    assert NoSpace("/w");
    FirstSpaceAfter("/w", after);
    assert message[..2] == "/w";
    assert Split(message, 2) == ["/w"] + Split(after, 1);
  }

  /** Cutting at the first space recovers `target` and `text` exactly when the string is `target + " " + text`. */
  lemma CutAtFirstSpace(s: string, target: string, text: string)
    requires NoSpace(target)
    ensures s == target + " " + text
            <==> FindSpace(s).Some? && FindSpace(s).value < |s|
                 && s[..FindSpace(s).value] == target && s[FindSpace(s).value + 1..] == text
  {
    FindSpaceSpec(s);
    FirstSpaceAfter(target, text);
    var r := FindSpace(s);
    if r.Some? {
      assert s == s[..r.value] + " " + s[r.value + 1..];
    }
    if s == target + " " + text {
      assert r == Some(|target|);
      assert s[..|target|] == target;
      assert s[|target| + 1..] == text;
    }
  }

  /**
   * After the "/w " prefix, the target runs up to the next space and the
   * text is everything after it; with no further space the format is bad.
   */
  lemma ParseWhisperIff(message: string, target: string, text: string)
    requires StartsWith(message, "/w ")
    ensures ParseWhisper(message) == Targeted(target, text)
            <==> message == "/w " + target + " " + text && NoSpace(target)
    ensures ParseWhisper(message) == BadFormat <==> NoSpace(message[3..])
  {
    var after := message[3..];
    ParseWhisperTail(message);
    assert message == "/w " + after;
    assert message == "/w " + target + " " + text <==> after == target + " " + text;
    FindSpaceSpec(after);
    var r := FindSpace(after);
    if ParseWhisper(message) == Targeted(target, text) {
      assert target == after[..r.value];
      CutAtFirstSpace(after, target, text);
    }
    if message == "/w " + target + " " + text && NoSpace(target) {
      CutAtFirstSpace(after, target, text);
    }
  }
}
