/**
 * The string helpers of js/script.js: `String.prototype.split` with a one-character
 * separator, `Array.prototype.join`, and `String.prototype.splitByWordCount`, which
 * breaks a speech's text into lines of a fixed number of words.
 */
module Text {

  /** The separator `splitByWordCount` splits and joins with. */
  const Space: char := ' '

  /**
   * `s.split(sep)`: the pieces of `s` between occurrences of `sep`, in order.
   * Like JavaScript, the empty string splits into one empty piece, and two
   * adjacent separators give an empty piece between them.
   */
  function Split(s: string, sep: char): (r: seq<string>)
    ensures |r| >= 1
    ensures forall k :: 0 <= k < |r| ==> sep !in r[k]
  {
    if s == [] then [[]]
    else
      var rest := Split(s[1..], sep);
      if s[0] == sep then [[]] + rest
      else [[s[0]] + rest[0]] + rest[1..]
  }

  /** `parts.join(sep)`; an empty list joins to the empty string. */
  function Join(parts: seq<string>, sep: char): (r: string)
    ensures |parts| > 0 ==> parts[0] <= r
  {
    if |parts| == 0 then []
    else if |parts| == 1 then parts[0]
    else parts[0] + [sep] + Join(parts[1..], sep)
  }

  /** Joining the pieces of a split gives back the original string. */
  lemma {:induction false} JoinSplit(s: string, sep: char)
    ensures Join(Split(s, sep), sep) == s
  {
    if s != [] {
      var rest := Split(s[1..], sep);
      JoinSplit(s[1..], sep);
      if s[0] == sep {
        assert Split(s, sep) == [[]] + rest;
        assert Join([[]] + rest, sep) == [] + [sep] + Join(rest, sep);
      } else if |rest| == 1 {
        assert Split(s, sep) == [[s[0]] + rest[0]];
      } else {
        var parts := Split(s, sep);
        assert parts == [[s[0]] + rest[0]] + rest[1..];
        assert parts[1..] == rest[1..];
        assert Join(rest, sep) == rest[0] + [sep] + Join(rest[1..], sep);
      }
    }
  }

  /** Splitting a string that begins with a separator-free piece `a`. */
  lemma {:induction false} SplitPrefix(a: string, b: string, sep: char)
    requires sep !in a
    ensures Split(a + b, sep) == [a + Split(b, sep)[0]] + Split(b, sep)[1..]
  {
    if a != [] {
      assert (a + b)[1..] == a[1..] + b;
      assert (a + b)[0] == a[0];
      SplitPrefix(a[1..], b, sep);
      assert [a[0]] + (a[1..] + Split(b, sep)[0]) == a + Split(b, sep)[0];
    } else {
      var sb := Split(b, sep);
      assert a + b == b;
      assert a + sb[0] == sb[0];
      assert [sb[0]] + sb[1..] == sb;
    }
  }

  /** Splitting a join of separator-free pieces gives back the pieces. */
  lemma {:induction false} SplitJoin(parts: seq<string>, sep: char)
    requires |parts| >= 1
    requires forall k :: 0 <= k < |parts| ==> sep !in parts[k]
    ensures Split(Join(parts, sep), sep) == parts
  {
    if |parts| == 1 {
      SplitPrefix(parts[0], [], sep);
      assert parts[0] + [] == parts[0];
    } else {
      var tail := Join(parts[1..], sep);
      SplitJoin(parts[1..], sep);
      SplitPrefix(parts[0], [sep] + tail, sep);
      assert ([sep] + tail)[1..] == tail;
      var st := Split([sep] + tail, sep);
      assert st == [[]] + parts[1..];
      assert st[0] == [] && st[1..] == parts[1..];
      assert parts[0] + st[0] == parts[0];
      assert Join(parts, sep) == parts[0] + ([sep] + tail);
      assert parts == [parts[0]] + parts[1..];
    }
  }

  /** Joining two non-empty lists of pieces is joining each and putting a separator between. */
  lemma {:induction false} JoinAppend(a: seq<string>, b: seq<string>, sep: char)
    requires |a| >= 1 && |b| >= 1
    ensures Join(a + b, sep) == Join(a, sep) + [sep] + Join(b, sep)
  {
    if |a| == 1 {
      assert (a + b)[1..] == b;
    } else {
      assert (a + b)[1..] == a[1..] + b;
      JoinAppend(a[1..], b, sep);
    }
  }

  /**
   * The lines `splitByWordCount(count)` builds from the list of words: the first `count`
   * words joined by spaces, then the next `count`, and so on; the last line takes
   * whatever is left.
   */
  function Chunks(words: seq<string>, count: nat): (r: seq<string>)
    requires count >= 1
    ensures r == [] <==> words == []
    ensures |r| <= |words|
    decreases |words|
  {
    if words == [] then []
    else
      var n := if count < |words| then count else |words|;
      [Join(words[..n], Space)] + Chunks(words[n..], count)
  }

  /** Joining the lines with spaces gives back the joined words. */
  lemma {:induction false} JoinChunks(words: seq<string>, count: nat)
    requires count >= 1
    ensures Join(Chunks(words, count), Space) == Join(words, Space)
    decreases |words|
  {
    if words != [] {
      var n := if count < |words| then count else |words|;
      var rest := Chunks(words[n..], count);
      JoinChunks(words[n..], count);
      if n == |words| {
        assert words[..n] == words;
        assert words[n..] == [];
      } else {
        assert rest != [];
        assert Join([Join(words[..n], Space)] + rest, Space) == Join(words[..n], Space) + [Space] + Join(rest, Space);
        JoinAppend(words[..n], words[n..], Space);
        assert words[..n] + words[n..] == words;
      }
    }
  }

  /**
   * Splitting a line back into words: every line but the last has exactly `count`
   * words and the last has between one and `count`.
   */
  lemma {:induction false} ChunkWordCounts(words: seq<string>, count: nat)
    requires count >= 1
    requires forall k :: 0 <= k < |words| ==> Space !in words[k]
    ensures forall i :: 0 <= i < |Chunks(words, count)| ==>
      1 <= |Split(Chunks(words, count)[i], Space)| <= count &&
      (i < |Chunks(words, count)| - 1 ==> |Split(Chunks(words, count)[i], Space)| == count)
    decreases |words|
  {
    if words != [] {
      var n := if count < |words| then count else |words|;
      var r := Chunks(words, count);
      var rest := Chunks(words[n..], count);
      assert r == [Join(words[..n], Space)] + rest;
      SplitJoin(words[..n], Space);
      ChunkWordCounts(words[n..], count);
      assert |r| > 1 ==> n == count;
      forall i | 0 <= i < |r|
        ensures 1 <= |Split(r[i], Space)| <= count && (i < |r| - 1 ==> |Split(r[i], Space)| == count)
      {
        if i > 0 {
          assert r[i] == rest[i - 1];
          assert 0 <= i - 1 < |rest|;
          assert 1 <= |Split(rest[i - 1], Space)| <= count;
          assert i - 1 < |rest| - 1 <==> i < |r| - 1;
        } else {
          assert r[0] == Join(words[..n], Space);
          assert Split(r[0], Space) == words[..n];
          assert |words[..n]| == n;
        }
      }
    }
  }

  /**
   * `splitByWordCount(count)`: splits the string on spaces and repeatedly takes the
   * first `count` words off the list (`splice(0, count)`), joining them with spaces,
   * until the list is empty. A `count` below one never shortens the list and the
   * source loops forever, so one is the least count callers may pass.
   */
  method SplitByWordCount(s: string, count: nat) returns (r: seq<string>)
    requires count >= 1
    ensures r == Chunks(Split(s, Space), count)
    ensures Join(r, Space) == s
    ensures |r| >= 1
    ensures forall i :: 0 <= i < |r| ==>
      1 <= |Split(r[i], Space)| <= count && (i < |r| - 1 ==> |Split(r[i], Space)| == count)
  {
    var arr := Split(s, Space);
    r := [];
    while |arr| > 0
      invariant r + Chunks(arr, count) == Chunks(Split(s, Space), count)
      decreases |arr|
    {
      var n := if count < |arr| then count else |arr|;
      r := r + [Join(arr[..n], Space)];
      arr := arr[n..];
    }
    assert arr == [];
    JoinChunks(Split(s, Space), count);
    JoinSplit(s, Space);
    ChunkWordCounts(Split(s, Space), count);
  }
}
