/** Python's strings: sequences of code points, which UTF-8 can encode unless a surrogate is among them. */
module CodePoints {
  type Code = c: nat | c < 0x110000
  type Text = seq<Code>

  predicate Surrogate(c: Code) {
    0xD800 <= c < 0xE000
  }

  /** t.encode("utf-8") does not raise. */
  predicate Encodes(t: Text) {
    forall i :: 0 <= i < |t| ==> !Surrogate(t[i])
  }

  /** A string literal. */
  function Ascii(s: string): (t: Text)
    ensures |t| == |s| && Encodes(t)
    ensures forall i :: 0 <= i < |s| ==> t[i] == s[i] as int
  {
    seq(|s|, i requires 0 <= i < |s| => s[i] as int)
  }

  lemma EncodesBoth(a: Text, b: Text)
    ensures Encodes(a + b) <==> Encodes(a) && Encodes(b)
  {
    if Encodes(a + b) {
      forall i | 0 <= i < |a| ensures !Surrogate(a[i]) {
        assert (a + b)[i] == a[i];
      }
      forall i | 0 <= i < |b| ensures !Surrogate(b[i]) {
        assert (a + b)[|a| + i] == b[i];
      }
    }
  }
}
