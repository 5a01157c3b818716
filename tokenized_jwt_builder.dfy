/** The compact-serialization tokenizer: segments are appended one at a time
    and `Build` classifies them as a signed (3 segments) or an encrypted
    (5 segments) token, following the segment counts of RFC 7515 section 7.1
    and RFC 7516 section 7.1. */
module TokenizedJwts {
  import opened Lang
  import opened Exceptions

  /** `DefaultTokenizedJwt` and `DefaultTokenizedJwe`. */
  datatype TokenizedJwt =
    | Jws(header: string, payload: string, signature: string)
    | Jwe(header: string, encryptedKey: string, iv: string, ciphertext: string, tag: string)

  /** The segments of a token in serialization order. */
  function Segments(t: TokenizedJwt): (s: seq<string>)
    ensures t.Jws? ==> |s| == 3
    ensures t.Jwe? ==> |s| == 5
    ensures |s| > 0 && s[0] == t.header
  {
    match t
    case Jws(h, p, sig) => [h, p, sig]
    case Jwe(h, k, iv, c, tag) => [h, k, iv, c, tag]
  }

  /** What `build()` yields for the accumulated segments. */
  function Tokenize(segments: seq<string>): (r: Result<TokenizedJwt, Error>)
    ensures r.Failure? <==> |segments| != 3 && |segments| != 5
    ensures r.Failure? ==> r.error == MalformedJwt(|segments| - 1)
    ensures r.Success? ==> Segments(r.value) == segments
    ensures r.Success? ==> (r.value.Jws? <==> |segments| == 3)
  {
    var size := |segments|;
    if size != 3 && size != 5 then
      Failure(MalformedJwt(size - 1))
    else if size == 3 then
      Success(Jws(segments[0], segments[1], segments[2]))
    else
      Success(Jwe(segments[0], segments[1], segments[2], segments[3], segments[4]))
  }

  /** Every token is rebuilt exactly from its own segments. */
  lemma TokenizeSegments(t: TokenizedJwt)
    ensures Tokenize(Segments(t)) == Success(t)
  {
  }

  /** `DefaultTokenizedJwtBuilder`: the ordered list of segments seen so far. */
  class TokenizedJwtBuilder {
    var tokens: seq<string>

    constructor ()
      ensures tokens == []
    {
      tokens := [];
    }

    /** Adds any segment, the empty one included, at the end, and returns
        the same builder for chaining. */
    method Append(token: string) returns (builder: TokenizedJwtBuilder)
      modifies this
      ensures tokens == old(tokens) + [token]
      ensures builder == this
    {
      tokens := tokens + [token];
      builder := this;
    }

    /** Classifies the segments. Having no `modifies` clause, it leaves the
        accumulated segments as they were. */
    method Build() returns (r: Result<TokenizedJwt, Error>)
      ensures r == Tokenize(tokens)
    {
      var size := |tokens|;
      if size != 3 && size != 5 {
        return Failure(MalformedJwt(size - 1));
      }
      if size == 3 {
        return Success(Jws(tokens[0], tokens[1], tokens[2]));
      }
      r := Success(Jwe(tokens[0], tokens[1], tokens[2], tokens[3], tokens[4]));
    }
  }

  // The meaning of the reported count: when the segments came from splitting
  // a compact string on '.', the string held one period fewer than there
  // are segments.

  /** The segments joined with '.' between consecutive ones. */
  ghost function Join(segments: seq<string>): string
  {
    if |segments| == 0 then ""
    else if |segments| == 1 then segments[0]
    else segments[0] + "." + Join(segments[1..])
  }

  ghost function Periods(s: string): nat
  {
    if |s| == 0 then 0 else (if s[0] == '.' then 1 else 0) + Periods(s[1..])
  }

  lemma {:induction false} PeriodsConcat(a: string, b: string)
    ensures Periods(a + b) == Periods(a) + Periods(b)
  {
    if |a| == 0 {
      assert a + b == b;
    } else {
      assert (a + b)[1..] == a[1..] + b;
      PeriodsConcat(a[1..], b);
    }
  }

  lemma {:induction false} NoPeriods(s: string)
    requires '.' !in s
    ensures Periods(s) == 0
  {
    if |s| > 0 {
      assert '.' !in s[1..] by {
        forall i | 0 <= i < |s[1..]| ensures s[1..][i] != '.' {
          assert s[1..][i] == s[i + 1];
        }
      }
      NoPeriods(s[1..]);
    }
  }

  /** Joining n >= 1 period-free segments gives a string with n - 1 periods. */
  lemma {:induction false} JoinPeriods(segments: seq<string>)
    requires |segments| >= 1
    requires forall i :: 0 <= i < |segments| ==> '.' !in segments[i]
    ensures Periods(Join(segments)) == |segments| - 1
  {
    NoPeriods(segments[0]);
    if |segments| > 1 {
      var rest := segments[1..];
      assert forall i :: 0 <= i < |rest| ==> '.' !in rest[i] by {
        forall i | 0 <= i < |rest| ensures '.' !in rest[i] {
          assert rest[i] == segments[i + 1];
        }
      }
      JoinPeriods(rest);
      PeriodsConcat(segments[0] + ".", Join(rest));
      PeriodsConcat(segments[0], ".");
      assert Periods(".") == 1 by { assert "."[1..] == ""; }
    }
  }

  /** For segments split from a non-empty compact string, the count in the
      error is the number of periods that string held, and the token is
      accepted exactly when it held two (JWS) or four (JWE). */
  lemma SplitTokenPeriods(segments: seq<string>)
    requires |segments| >= 1
    requires forall i :: 0 <= i < |segments| ==> '.' !in segments[i]
    ensures Tokenize(segments).Failure? ==>
              Tokenize(segments).error == MalformedJwt(Periods(Join(segments)))
    ensures Tokenize(segments).Success? <==> Periods(Join(segments)) in {2, 4}
  {
    JoinPeriods(segments);
  }
}
