/** base/lib/passport/passport.go: the signed token that carries a user's identity between services. */
module PassportToken {
  import opened Common
  import opened Base64Url

  datatype Passport = Passport(userID: string, email: string, roles: seq<string>, issuedAt: int, expiresAt: int)

  datatype Failure = BadFormat | BadSignature | BadEncoding | BadJson | Expired

  datatype Verdict = Accepted(passport: Passport) | Rejected(reason: Failure)

  /** The library calls, uninterpreted: JSON both ways, and HMAC-SHA256 (section 2 of RFC 2104) of a key and a text. */
  datatype Primitives = Primitives(
    marshal: Passport -> seq<Byte>,
    unmarshal: seq<Byte> -> Option<Passport>,
    hmac: (seq<Byte>, string) -> seq<Byte>)
  {
    predicate JsonRoundTrips(p: Passport) {
      unmarshal(marshal(p)) == Some(p)
    }
  }

  function Signature(lib: Primitives, payload: string, secret: seq<Byte>): (s: string) {
    Encode(lib.hmac(secret, payload))
  }

  function SignPassport(lib: Primitives, passport: Passport, secret: seq<Byte>): (token: string) {
    var payload := Encode(lib.marshal(passport));
    payload + "." + Signature(lib, payload, secret)
  }

  /** `strings.Split(text, ".")`. */
  function SplitAtDots(text: string): (parts: seq<string>)
    ensures parts != []
  {
    if text == "" then [""]
    else
      var rest := SplitAtDots(text[1..]);
      if text[0] == '.' then [""] + rest else [[text[0]] + rest[0]] + rest[1..]
  }

  function VerifyPassport(lib: Primitives, token: string, secret: seq<Byte>, now: int): (v: Verdict) {
    var parts := SplitAtDots(token);
    if |parts| != 2 then Rejected(BadFormat)
    else
      var payload, sig := parts[0], parts[1];
      if sig != Signature(lib, payload, secret) then Rejected(BadSignature)
      else
        var json := Decode(payload);
        if json.None? then Rejected(BadEncoding)
        else
          var p := lib.unmarshal(json.value);
          if p.None? then Rejected(BadJson)
          else if now > p.value.expiresAt then Rejected(Expired)
          else Accepted(p.value)
  }

  predicate DotFree(s: string) {
    forall i :: 0 <= i < |s| ==> s[i] != '.'
  }

  lemma {:induction false} SplitDotFree(s: string)
    requires DotFree(s)
    ensures SplitAtDots(s) == [s]
  {
    if s != "" {
      SplitDotFree(s[1..]);
      assert s == [s[0]] + s[1..];
    }
  }

  lemma {:induction false} SplitAtFirstDot(a: string, b: string)
    requires DotFree(a)
    ensures SplitAtDots(a + "." + b) == [a] + SplitAtDots(b)
  {
    var t := a + "." + b;
    if a == "" {
      assert t[1..] == b;
    } else {
      SplitAtFirstDot(a[1..], b);
      assert t[1..] == a[1..] + "." + b;
      assert a == [a[0]] + a[1..];
    }
  }

  /** Two parts come only from a text with exactly one dot between them. */
  lemma {:induction false} SplitPartsJoin(t: string)
    ensures forall i :: 0 <= i < |SplitAtDots(t)| ==> DotFree(SplitAtDots(t)[i])
    ensures |SplitAtDots(t)| == 1 ==> t == SplitAtDots(t)[0]
    ensures |SplitAtDots(t)| == 2 ==> t == SplitAtDots(t)[0] + "." + SplitAtDots(t)[1]
  {
    if t != "" {
      SplitPartsJoin(t[1..]);
      assert t == [t[0]] + t[1..];
      var rest := SplitAtDots(t[1..]);
      assert DotFree(rest[0]);
    }
  }

  /** A token is payload, dot, signature: the split gives back those two parts. */
  lemma TokenSplits(lib: Primitives, payload: string, secret: seq<Byte>)
    requires DotFree(payload)
    ensures SplitAtDots(payload + "." + Signature(lib, payload, secret)) == [payload, Signature(lib, payload, secret)]
  {
    EncodedAlphabet(lib.hmac(secret, payload));
    SplitDotFree(Signature(lib, payload, secret));
    SplitAtFirstDot(payload, Signature(lib, payload, secret));
  }

  /** Verifying what was signed with the same secret returns the passport, until it expires. */
  lemma VerifySigned(lib: Primitives, p: Passport, secret: seq<Byte>, now: int)
    requires lib.JsonRoundTrips(p)
    ensures VerifyPassport(lib, SignPassport(lib, p, secret), secret, now)
            == if now > p.expiresAt then Rejected(Expired) else Accepted(p)
  {
    var payload := Encode(lib.marshal(p));
    EncodedAlphabet(lib.marshal(p));
    TokenSplits(lib, payload, secret);
    DecodeInvertsEncode(lib.marshal(p));
  }

  /** Under another secret a signed token is refused if and only if the two secrets give its payload different MACs. */
  lemma OtherSecret(lib: Primitives, p: Passport, secret: seq<Byte>, other: seq<Byte>, now: int)
    ensures var payload := Encode(lib.marshal(p));
            VerifyPassport(lib, SignPassport(lib, p, secret), other, now) == Rejected(BadSignature)
            <==> lib.hmac(other, payload) != lib.hmac(secret, payload)
  {
    var payload := Encode(lib.marshal(p));
    EncodedAlphabet(lib.marshal(p));
    TokenSplits(lib, payload, secret);
    EncodeInjective(lib.hmac(other, payload), lib.hmac(secret, payload));
  }

  /** What a token must look like to be accepted as `p`. */
  predicate Carries(lib: Primitives, token: string, payload: string, secret: seq<Byte>, p: Passport) {
    && DotFree(payload)
    && token == payload + "." + Encode(lib.hmac(secret, payload))
    && Decode(payload).Some?
    && lib.unmarshal(Decode(payload).value) == Some(p)
  }

  /** The verifier accepts exactly the unexpired tokens made of a decodable payload and that payload's own MAC. */
  lemma AcceptedExactlyWhenSigned(lib: Primitives, token: string, secret: seq<Byte>, now: int, p: Passport)
    ensures VerifyPassport(lib, token, secret, now) == Accepted(p)
            <==> now <= p.expiresAt && exists payload :: Carries(lib, token, payload, secret, p)
  {
    SplitPartsJoin(token);
    if VerifyPassport(lib, token, secret, now) == Accepted(p) {
      assert Carries(lib, token, SplitAtDots(token)[0], secret, p);
    }
    if payload :| Carries(lib, token, payload, secret, p) {
      TokenSplits(lib, payload, secret);
    }
  }

  function Dots(s: string): (n: nat) {
    if s == "" then 0 else (if s[0] == '.' then 1 else 0) + Dots(s[1..])
  }

  lemma {:induction false} PartsCountDots(t: string)
    ensures |SplitAtDots(t)| == Dots(t) + 1
  {
    if t != "" {
      PartsCountDots(t[1..]);
    }
  }

  lemma {:induction false} NoDots(s: string)
    ensures Dots(s) == 0 <==> DotFree(s)
  {
    if s != "" {
      NoDots(s[1..]);
      assert DotFree(s) ==> DotFree(s[1..]);
      if DotFree(s[1..]) && s[0] != '.' {
        assert s == [s[0]] + s[1..];
      }
    }
  }

  /** Why a token is refused: its format if and only if it has not exactly one dot, ... */
  lemma BadFormatExactly(lib: Primitives, token: string, secret: seq<Byte>, now: int)
    ensures VerifyPassport(lib, token, secret, now) == Rejected(BadFormat) <==> Dots(token) != 1
  {
    PartsCountDots(token);
  }

  /** ... and for a payload, a dot and a signature, the first of these that applies: MAC, base64, JSON, expiry. */
  lemma RefusedTokenHasItsReason(lib: Primitives, payload: string, sig: string, secret: seq<Byte>, now: int)
    requires DotFree(payload) && DotFree(sig)
    ensures var v := VerifyPassport(lib, payload + "." + sig, secret, now);
            var signed := sig == Encode(lib.hmac(secret, payload));
            var json := Decode(payload);
            && (v == Rejected(BadSignature) <==> !signed)
            && (v == Rejected(BadEncoding) <==> signed && json == None)
            && (v == Rejected(BadJson) <==> signed && json != None && lib.unmarshal(json.value) == None)
            && (v == Rejected(Expired)
                <==> signed && json != None && lib.unmarshal(json.value) != None && lib.unmarshal(json.value).value.expiresAt < now)
            && v != Rejected(BadFormat)
  {
    SplitDotFree(sig);
    SplitAtFirstDot(payload, sig);
  }
}
