/**
 The final output line: every path of the result set, in iteration order,
 each followed by one space, and a newline only when the set is non-empty.
 */
module Output {
  import opened SortedSet

  /** The loop over the set: each path printed with `"%s "`. */
  function Words(paths: seq<string>): (out: string)
    ensures |out| == 0 <==> |paths| == 0
    ensures |paths| > 0 ==> out[|out| - 1] == ' '
    ensures |out| >= |paths|
  {
    if |paths| == 0 then "" else paths[0] + " " + Words(paths[1..])
  }

  /** The whole of what the tool prints after its diagnostics. */
  function Render(paths: seq<string>): (out: string)
    ensures |out| == 0 <==> |paths| == 0
    ensures |paths| > 0 ==> out[|out| - 1] == '\n'
    ensures |paths| > 0 ==> out[..|out| - 1] == Words(paths)
  {
    Words(paths) + (if |paths| > 0 then "\n" else "")
  }

  /** Splits `s` into its space-terminated words; `cur` is the word read so
      far, and an unterminated tail is dropped. */
  function SplitWords(s: string, cur: string): seq<string>
  {
    if |s| == 0 then []
    else if s[0] == ' ' then [cur] + SplitWords(s[1..], "")
    else SplitWords(s[1..], cur + [s[0]])
  }

  /** Reads an output line back into the paths it lists. */
  function Decode(out: string): seq<string>
  {
    if |out| > 0 && out[|out| - 1] == '\n' then SplitWords(out[..|out| - 1], "")
    else SplitWords(out, "")
  }

  /** A path without a space is read back whole up to its terminating space. */
  lemma {:induction false} SplitOneWord(p: string, rest: string, cur: string)
    requires ' ' !in p
    ensures SplitWords(p + " " + rest, cur) == [cur + p] + SplitWords(rest, "")
  {
    var s := p + " " + rest;
    if |p| == 0 {
      assert s[0] == ' ' && s[1..] == rest;
      assert cur + p == cur;
    } else {
      assert s[1..] == p[1..] + " " + rest;
      assert ' ' !in p[1..];
      SplitOneWord(p[1..], rest, cur + [p[0]]);
      assert cur + [p[0]] + p[1..] == cur + p;
    }
  }

  lemma {:induction false} SplitWordsOfWords(paths: seq<string>)
    requires forall i :: 0 <= i < |paths| ==> ' ' !in paths[i]
    ensures SplitWords(Words(paths), "") == paths
  {
    if |paths| > 0 {
      SplitOneWord(paths[0], Words(paths[1..]), "");
      SplitWordsOfWords(paths[1..]);
      assert "" + paths[0] == paths[0];
    }
  }

  /** The output line determines the set it was printed from, as long as
      no path contains a space. */
  lemma RenderDecode(paths: seq<string>)
    requires forall i :: 0 <= i < |paths| ==> ' ' !in paths[i]
    ensures Decode(Render(paths)) == paths
  {
    SplitWordsOfWords(paths);
  }
}
