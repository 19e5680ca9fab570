/**
 * The relay client's event signer: the canonical serialisation
 * `[0, pubkey, created_at, kind, tags, content]` of an event (the "Events
 * and signatures" part of Nostr NIP-01), its SHA-256 content id, the length
 * checks around the BIP-340 Schnorr signature, and the NIP-42 client
 * authentication event of kind 22242.
 */
module EventSigner {
  import opened Wrappers
  import opened Bytes
  import opened Ascii
  import Hex
  import JsonText

  /** The kind of a NIP-42 client authentication event. */
  const AuthKind: int := 22242

  /** A SHA-256 digest: 32 bytes. */
  type Digest = s: seq<JByte> | |s| == 32 witness seq(32, _ => 0)

  /** The 32 random auxiliary bytes `SecureRandom` supplies to a BIP-340 signature. */
  type AuxRand = s: seq<JByte> | |s| == 32 witness seq(32, _ => 0)

  /**
   * The foreign primitives the signer calls. `sha256` is `MessageDigest`
   * SHA-256 over the UTF-8 bytes of the text. `signSchnorr(msg, key, aux)`
   * is secp256k1's Schnorr signing; `None` stands for a `null` result or an
   * exception, and a returned array may have any length.
   */
  datatype Crypto = Crypto(
    sha256: string -> Digest,
    signSchnorr: (seq<JByte>, seq<JByte>, seq<JByte>) -> Option<seq<JByte>>)

  /** The fields an event id commits to, in serialisation order. */
  datatype Fields = Fields(pubkey: string, createdAt: int, kind: int, tags: seq<seq<string>>, content: string)

  /** A signed event as the AUTH message carries it. */
  datatype Event = Event(
    id: string, pubkey: string, createdAt: int, kind: int,
    tags: seq<seq<string>>, content: string, sig: string)

  /** Jackson's compact rendering of `[0, pubkey, created_at, kind, tags, content]`. */
  function Serialize(f: Fields): string {
    "[0," + (JsonText.Quote(f.pubkey) + ("," + (JsonText.IntToDec(f.createdAt) + ("," + (JsonText.IntToDec(f.kind)
      + ("," + (JsonText.TagArray(f.tags) + ("," + (JsonText.Quote(f.content) + "]")))))))))
  }

  /** Reads a serialisation back into its fields; `None` for any text not of that shape. */
  function ReadSerialized(s: string): Option<Fields> {
    var r0 :- JsonText.Expect("[0,", s);
    var pubkey :- JsonText.ReadString(r0);
    var r1 :- JsonText.Expect(",", pubkey.1);
    var createdAt :- JsonText.ReadInt(r1);
    var r2 :- JsonText.Expect(",", createdAt.1);
    var kind :- JsonText.ReadInt(r2);
    var r3 :- JsonText.Expect(",", kind.1);
    var tags :- JsonText.ReadTagArray(r3);
    var r4 :- JsonText.Expect(",", tags.1);
    var content :- JsonText.ReadString(r4);
    var r5 :- JsonText.Expect("]", content.1);
    if r5 == "" then Some(Fields(pubkey.0, createdAt.0, kind.0, tags.0, content.0)) else None
  }

  lemma ExpectOf(lit: string, tail: string)
    ensures JsonText.Expect(lit, lit + tail) == Some(tail)
  {
    assert (lit + tail)[..|lit|] == lit;
  }

  /** The serialisation loses nothing: every field reads back from it. */
  lemma SerializeRoundTrip(f: Fields)
    ensures ReadSerialized(Serialize(f)) == Some(f)
  {
    var t5 := "]";
    var t4 := JsonText.Quote(f.content) + t5;
    var t3 := JsonText.TagArray(f.tags) + ("," + t4);
    var t2 := JsonText.IntToDec(f.kind) + ("," + t3);
    var t1 := JsonText.IntToDec(f.createdAt) + ("," + t2);
    var t0 := JsonText.Quote(f.pubkey) + ("," + t1);
    assert Serialize(f) == "[0," + t0;
    ExpectOf("[0,", t0);
    JsonText.ReadStringOfQuote(f.pubkey, "," + t1);
    ExpectOf(",", t1);
    JsonText.ReadIntOfIntToDec(f.createdAt, "," + t2);
    ExpectOf(",", t2);
    JsonText.ReadIntOfIntToDec(f.kind, "," + t3);
    ExpectOf(",", t3);
    JsonText.ReadTagArrayOf(f.tags, "," + t4);
    ExpectOf(",", t4);
    JsonText.ReadStringOfQuote(f.content, t5);
    ExpectOf("]", "");
    assert t5 == "]" + "";
  }

  /** Distinct field tuples never share a serialisation. */
  lemma SerializeInjective(f: Fields, g: Fields)
    requires Serialize(f) == Serialize(g)
    ensures f == g
  {
    SerializeRoundTrip(f);
    SerializeRoundTrip(g);
  }

  /** The fields `calculateEventId` serialises: the public key is lowercased first. */
  function CanonicalFields(pubkey: string, createdAt: int, kind: int, tags: seq<seq<string>>, content: string): (f: Fields)
    ensures IsLowerCase(f.pubkey)
  {
    LowerIsLowerCase(pubkey);
    Fields(Lower(pubkey), createdAt, kind, tags, content)
  }

  /**
   * `calculateEventId`: the lowercase hex of the SHA-256 of the canonical
   * serialisation. It is 64 characters and decodes to exactly that digest.
   */
  function CalculateEventId(crypto: Crypto, pubkey: string, createdAt: int, kind: int, tags: seq<seq<string>>, content: string): (id: string)
    ensures |id| == 64
    ensures Hex.IsLowerHex(id)
    ensures Hex.FromHex(id) == Some(crypto.sha256(Serialize(CanonicalFields(pubkey, createdAt, kind, tags, content))))
  {
    var digest := crypto.sha256(Serialize(CanonicalFields(pubkey, createdAt, kind, tags, content)));
    Hex.FromHexToHex(digest);
    Hex.ToHex(digest)
  }

  /** The id does not depend on the case of the public key's letters. */
  lemma EventIdIgnoresPubkeyCase(crypto: Crypto, pubkey: string, createdAt: int, kind: int, tags: seq<seq<string>>, content: string)
    ensures CalculateEventId(crypto, pubkey, createdAt, kind, tags, content)
         == CalculateEventId(crypto, Lower(pubkey), createdAt, kind, tags, content)
  {
    LowerIsLowerCase(pubkey);
    LowerOfLowerCase(Lower(pubkey));
  }

  /**
   * Two id computations hash the same text exactly when their lowercased
   * public keys and all other fields agree, so an id is a function of those
   * fields and nothing else.
   */
  lemma SameHashInputIffSameFields(
    p1: string, c1: int, k1: int, t1: seq<seq<string>>, x1: string,
    p2: string, c2: int, k2: int, t2: seq<seq<string>>, x2: string)
    ensures Serialize(CanonicalFields(p1, c1, k1, t1, x1)) == Serialize(CanonicalFields(p2, c2, k2, t2, x2))
        <==> Lower(p1) == Lower(p2) && c1 == c2 && k1 == k2 && t1 == t2 && x1 == x2
  {
    if Serialize(CanonicalFields(p1, c1, k1, t1, x1)) == Serialize(CanonicalFields(p2, c2, k2, t2, x2)) {
      SerializeInjective(CanonicalFields(p1, c1, k1, t1, x1), CanonicalFields(p2, c2, k2, t2, x2));
    }
  }

  /** The signer returned an array of the length a BIP-340 signature has. */
  predicate SignatureOk(out: Option<seq<JByte>>) {
    out.Some? && |out.value| == 64
  }

  /**
   * `signEventId`. It yields nothing when secp256k1 failed to initialise,
   * when the id or the private key is not 64 characters (an odd length
   * throws while decoding, any other length decodes to the wrong number of
   * bytes), or when the signer returns null, throws, or returns other than
   * 64 bytes. A signature it yields is the signer's 64 bytes as 128
   * lowercase hex characters.
   */
  function SignEventId(crypto: Crypto, secpReady: bool, eventId: string, privkey: string, aux: AuxRand): (r: Option<string>)
    ensures r.Some? <==>
      secpReady && |eventId| == 64 && |privkey| == 64
      && SignatureOk(crypto.signSchnorr(Hex.FromHex(eventId).value, Hex.FromHex(privkey).value, aux))
    ensures r.Some? ==>
      |r.value| == 128 && Hex.IsLowerHex(r.value)
      && Hex.FromHex(r.value) == crypto.signSchnorr(Hex.FromHex(eventId).value, Hex.FromHex(privkey).value, aux)
  {
    if !secpReady then None
    else
      match Hex.FromHex(eventId)
      case None => None
      case Some(idBytes) =>
        if |idBytes| != 32 then None
        else
          match Hex.FromHex(privkey)
          case None => None
          case Some(keyBytes) =>
            if |keyBytes| != 32 then None
            else
              match crypto.signSchnorr(idBytes, keyBytes, aux)
              case None => None
              case Some(sig) =>
                if |sig| != 64 then None
                else
                  Hex.FromHexToHex(sig);
                  Some(Hex.ToHex(sig))
  }

  /** The tags of a NIP-42 authentication event for `relay` and `challenge`. */
  function AuthTags(relay: string, challenge: string): seq<seq<string>> {
    [["relay", relay], ["challenge", challenge]]
  }

  /** An event's id is the id of its own fields. */
  predicate IdMatches(crypto: Crypto, e: Event) {
    e.id == CalculateEventId(crypto, e.pubkey, e.createdAt, e.kind, e.tags, e.content)
  }

  /**
   * `createAuthEvent`, without the JSON rendering of the message. The
   * creation time is the clock's milliseconds divided by 1000. The event
   * exists exactly when the signer accepts the digest of its serialisation
   * with the private key, which needs a 64-character key and an
   * initialised secp256k1.
   */
  function CreateAuthEvent(crypto: Crypto, secpReady: bool, challenge: string, relay: string, pubkey: string,
                           privkey: string, nowMillis: nat, aux: AuxRand): (r: Option<Event>)
    ensures r.Some? <==>
      secpReady && |privkey| == 64
      && SignatureOk(crypto.signSchnorr(
           crypto.sha256(Serialize(Fields(Lower(pubkey), nowMillis / 1000, AuthKind, AuthTags(relay, challenge), ""))),
           Hex.FromHex(privkey).value, aux))
    ensures r.Some? ==>
      && r.value.kind == AuthKind
      && r.value.tags == AuthTags(relay, challenge)
      && r.value.content == ""
      && r.value.pubkey == Lower(pubkey)
      && r.value.createdAt == nowMillis / 1000
      && IdMatches(crypto, r.value)
      && |r.value.sig| == 128 && Hex.IsLowerHex(r.value.sig)
      && SignEventId(crypto, secpReady, r.value.id, privkey, aux) == Some(r.value.sig)
  {
    var createdAt := nowMillis / 1000;
    var tags := AuthTags(relay, challenge);
    var id := CalculateEventId(crypto, Lower(pubkey), createdAt, AuthKind, tags, "");
    LowerIsLowerCase(pubkey);
    LowerOfLowerCase(Lower(pubkey));
    match SignEventId(crypto, secpReady, id, privkey, aux)
    case None => None
    case Some(sig) =>
      if |sig| == 0 then None
      else Some(Event(id, Lower(pubkey), createdAt, AuthKind, tags, "", sig))
  }

  /** The relay address and the challenge are both committed to by the serialisation the id hashes. */
  lemma AuthSerializationBindsRelayAndChallenge(pubkey: string, createdAt: int, r1: string, c1: string, r2: string, c2: string)
    requires Serialize(Fields(pubkey, createdAt, AuthKind, AuthTags(r1, c1), "")) == Serialize(Fields(pubkey, createdAt, AuthKind, AuthTags(r2, c2), ""))
    ensures r1 == r2 && c1 == c2
  {
    SerializeInjective(Fields(pubkey, createdAt, AuthKind, AuthTags(r1, c1), ""), Fields(pubkey, createdAt, AuthKind, AuthTags(r2, c2), ""));
    assert AuthTags(r1, c1)[0][1] == r1 && AuthTags(r1, c1)[1][1] == c1;
  }
}
