/** Sequence helpers shared by the chat-history store and the RAG pipeline. */
module Seqs {

  /** Python's `reversed`: `s` back to front. */
  function Reverse<T>(s: seq<T>): (r: seq<T>)
    ensures |r| == |s|
    ensures forall i :: 0 <= i < |s| ==> r[i] == s[|s| - 1 - i]
  {
    if s == [] then [] else Reverse(s[1..]) + [s[0]]
  }

  /** Reversing the first `n` elements of the reversal gives back the last `n` elements. */
  lemma {:induction false} ReverseOfTake<T>(s: seq<T>, n: nat)
    requires n <= |s|
    ensures Reverse(Reverse(s)[..n]) == s[|s| - n..]
  {
    var a := Reverse(Reverse(s)[..n]);
    forall i | 0 <= i < n
      ensures a[i] == s[|s| - n + i]
    {
      ReverseOfTakeAt(s, n, i);
    }
  }

  lemma {:induction false} ReverseOfTakeAt<T>(s: seq<T>, n: nat, i: nat)
    requires i < n <= |s|
    ensures Reverse(Reverse(s)[..n])[i] == s[|s| - n + i]
  {
    var t := Reverse(s)[..n];
    assert Reverse(t)[i] == t[n - 1 - i];
  }

  /** A suffix of a sequence with one more element at the end. */
  lemma {:induction false} SuffixSnoc<T>(a: seq<T>, x: T, k: nat)
    requires k <= |a|
    ensures (a + [x])[k..] == a[k..] + [x]
  {
  }

  /** Python's `sep.join(parts)`. */
  function Join(parts: seq<string>, sep: string): (r: string)
    ensures parts == [] ==> r == ""
    ensures |parts| == 1 ==> r == parts[0]
  {
    if parts == [] then ""
    else if |parts| == 1 then parts[0]
    else Join(parts[..|parts| - 1], sep) + sep + parts[|parts| - 1]
  }

  /** The joined text begins with the first part. */
  lemma {:induction false} JoinStartsWithFirst(parts: seq<string>, sep: string)
    requires parts != []
    ensures |parts[0]| <= |Join(parts, sep)| && Join(parts, sep)[..|parts[0]|] == parts[0]
  {
    if |parts| > 1 {
      var init := parts[..|parts| - 1];
      JoinStartsWithFirst(init, sep);
      assert init[0] == parts[0];
      var j := Join(init, sep);
      assert Join(parts, sep) == j + (sep + parts[|parts| - 1]);
      assert (j + (sep + parts[|parts| - 1]))[..|parts[0]|] == j[..|parts[0]|];
    }
  }

  /** The joined text ends with the last part. */
  lemma {:induction false} JoinEndsWithLast(parts: seq<string>, sep: string)
    requires parts != []
    ensures |parts[|parts| - 1]| <= |Join(parts, sep)|
    ensures Join(parts, sep)[|Join(parts, sep)| - |parts[|parts| - 1]|..] == parts[|parts| - 1]
  {
  }

  /** Joining one more part adds the separator and that part at the end. */
  lemma {:induction false} JoinSnoc(parts: seq<string>, last: string, sep: string)
    ensures Join(parts + [last], sep) == if parts == [] then last else Join(parts, sep) + sep + last
  {
    assert (parts + [last])[..|parts|] == parts;
  }

  /** Joining a concatenation joins the two halves with one separator between them. */
  lemma {:induction false} JoinConcat(a: seq<string>, b: seq<string>, sep: string)
    requires a != [] && b != []
    ensures Join(a + b, sep) == Join(a, sep) + sep + Join(b, sep)
  {
    var init, last := b[..|b| - 1], b[|b| - 1];
    assert b == init + [last];
    if init == [] {
      calc {
        Join(a + b, sep);
        { assert a + b == a + [last]; JoinSnoc(a, last, sep); }
        Join(a, sep) + sep + last;
        { JoinSnoc([], last, sep); assert b == [] + [last]; }
        Join(a, sep) + sep + Join(b, sep);
      }
    } else {
      calc {
        Join(a + b, sep);
        { assert a + b == (a + init) + [last]; JoinSnoc(a + init, last, sep); }
        Join(a + init, sep) + sep + last;
        { JoinConcat(a, init, sep); }
        (Join(a, sep) + sep + Join(init, sep)) + sep + last;
        Join(a, sep) + sep + (Join(init, sep) + sep + last);
        { JoinSnoc(init, last, sep); }
        Join(a, sep) + sep + Join(b, sep);
      }
    }
  }
}
