/** Speaker labels derived from audio file names.

    The session controller labels every uploaded file with a speaker taken from
    its name: the first piece of the name split on '_', or, when that piece is
    empty, the first piece of the name split on '.'.  The string `split` of the
    browser runtime is modelled here as `Split`, together with its inverse
    `Join` and the index of the first separator. */
module Speaker {

  /** Index of the first occurrence of `c` in `s`, or `|s|` when there is none. */
  function IndexOf(s: string, c: char): (k: nat)
    ensures k <= |s|
    ensures c !in s[..k]
    ensures k < |s| ==> s[k] == c
    ensures k == |s| <==> c !in s
  {
    if s == [] then 0
    else if s[0] == c then 0
    else 1 + IndexOf(s[1..], c)
  }

  /** `s.split(sep)` for a one-character separator: the pieces between
      separators, in order; the empty string splits into one empty piece. */
  function Split(s: string, sep: char): (pieces: seq<string>)
    ensures |pieces| >= 1
    ensures forall i :: 0 <= i < |pieces| ==> sep !in pieces[i]
  {
    if s == [] then [""]
    else if s[0] == sep then [""] + Split(s[1..], sep)
    else
      var rest := Split(s[1..], sep);
      [[s[0]] + rest[0]] + rest[1..]
  }

  /** `pieces.join(sep)`: the inverse of `Split`. */
  function Join(pieces: seq<string>, sep: char): string
  {
    if pieces == [] then ""
    else if |pieces| == 1 then pieces[0]
    else pieces[0] + [sep] + Join(pieces[1..], sep)
  }

  lemma {:induction false} JoinConsChar(c: char, p: string, ps: seq<string>, sep: char)
    ensures Join([[c] + p] + ps, sep) == [c] + Join([p] + ps, sep)
  {
    if ps != [] {
      assert ([[c] + p] + ps)[1..] == ps;
      assert ([p] + ps)[1..] == ps;
    }
  }

  /** Splitting and joining again gives back the original name. */
  lemma {:induction false} JoinSplit(s: string, sep: char)
    ensures Join(Split(s, sep), sep) == s
  {
    if s == [] {
    } else if s[0] == sep {
      var rest := Split(s[1..], sep);
      JoinSplit(s[1..], sep);
      assert ([""] + rest)[1..] == rest;
      assert Join([""] + rest, sep) == "" + [sep] + Join(rest, sep);
      assert s == [s[0]] + s[1..];
    } else {
      var rest := Split(s[1..], sep);
      JoinSplit(s[1..], sep);
      JoinConsChar(s[0], rest[0], rest[1..], sep);
      assert [rest[0]] + rest[1..] == rest;
      assert s == [s[0]] + s[1..];
    }
  }

  /** The first piece of a split is the text before the first separator
      (the whole string when there is no separator). */
  lemma {:induction false} SplitHead(s: string, sep: char)
    ensures Split(s, sep)[0] == s[..IndexOf(s, sep)]
  {
    if s != [] && s[0] != sep {
      SplitHead(s[1..], sep);
      assert s[..IndexOf(s, sep)] == [s[0]] + s[1..][..IndexOf(s[1..], sep)];
    }
  }

  /** `fileName.split('_')[0] || fileName.split('.')[0]`: the empty first
      piece is falsy, so only then is the '.' split consulted. */
  function ExtractSpeakerName(fileName: string): (speaker: string)
    ensures speaker <= fileName
    ensures speaker == "" <==> fileName == ""
  {
    SplitHead(fileName, '_');
    SplitHead(fileName, '.');
    var byUnderscore := Split(fileName, '_')[0];
    if byUnderscore != "" then byUnderscore else Split(fileName, '.')[0]
  }

  /** A name holding '_' past its first character is labelled with the text
      before the first '_'. */
  lemma SpeakerBeforeFirstUnderscore(fileName: string, k: nat)
    requires 0 < k < |fileName| && fileName[k] == '_' && '_' !in fileName[..k]
    ensures ExtractSpeakerName(fileName) == fileName[..k]
  {
    SplitHead(fileName, '_');
  }

  /** A name with no '_' is its own label, '.' and extension included. */
  lemma SpeakerWithoutUnderscore(fileName: string)
    requires '_' !in fileName
    ensures ExtractSpeakerName(fileName) == fileName
  {
    SplitHead(fileName, '_');
    SplitHead(fileName, '.');
  }

  /** Only a name that starts with '_' falls back to the text before the
      first '.'; that label keeps the leading '_'. */
  lemma SpeakerAfterLeadingUnderscore(fileName: string)
    requires fileName != [] && fileName[0] == '_'
    ensures ExtractSpeakerName(fileName) == fileName[..IndexOf(fileName, '.')]
    ensures ExtractSpeakerName(fileName)[0] == '_'
  {
    SplitHead(fileName, '_');
    SplitHead(fileName, '.');
  }

  /** The '_' convention: `alice_1.wav` is labelled `alice`. */
  lemma SpeakerExampleAlice1()
    ensures ExtractSpeakerName("alice_1.wav") == "alice"
  {
    var n := "alice_1.wav";
    assert n[..5] == "alice";
    SpeakerBeforeFirstUnderscore(n, 5);
  }

  lemma SpeakerExampleAlice2()
    ensures ExtractSpeakerName("alice_2.wav") == "alice"
  {
    var n := "alice_2.wav";
    assert n[..5] == "alice";
    SpeakerBeforeFirstUnderscore(n, 5);
  }

  lemma SpeakerExampleBob1()
    ensures ExtractSpeakerName("bob_1.wav") == "bob"
  {
    var n := "bob_1.wav";
    assert n[..3] == "bob";
    SpeakerBeforeFirstUnderscore(n, 3);
  }

  /** A name without '_' is kept whole: `alice.wav` is labelled `alice.wav`. */
  lemma SpeakerExampleNoUnderscore()
    ensures ExtractSpeakerName("alice.wav") == "alice.wav"
  {
    SpeakerWithoutUnderscore("alice.wav");
  }

  /** A leading '_' falls back to the '.' split: `_x.wav` is labelled `_x`. */
  lemma SpeakerExampleLeadingUnderscore()
    ensures ExtractSpeakerName("_x.wav") == "_x"
  {
    var n := "_x.wav";
    assert IndexOf(n, '.') == 2 by {
      assert n[2] == '.' && '.' !in n[..2];
    }
    SpeakerAfterLeadingUnderscore(n);
  }
}
