/** The 104-byte bridge message and the three parts of a signature. */
module Message {
  import opened Wrappers
  import opened Hex

  const MESSAGE_LENGTH := 104

  function Strip0x(s: string): string {
    if |s| >= 2 && s[..2] == "0x" then s[2..] else s
  }

  /** The transfer a message confirms; hashes and addresses may come with or without their prefix. */
  datatype Transfer = Transfer(recipient: string, value: nat, transactionHash: string, bridgeAddress: string)

  datatype Parsed = Parsed(recipient: string, amount: string, txHash: string, contractAddress: string)

  function CreateMessage(t: Transfer, expectedMessageLength: nat): Option<string> {
    var recipient := Strip0x(t.recipient);
    var value := PadLeft(ToHex(t.value), 64);
    var transactionHash := Strip0x(t.transactionHash);
    var bridgeAddress := Strip0x(t.bridgeAddress);
    if |recipient| != 40 || |value| != 64 || |transactionHash| != 64 || |bridgeAddress| != 40 then None
    else
      var message := "0x" + recipient + value + transactionHash + bridgeAddress;
      if |message| != 2 + 2 * expectedMessageLength then None else Some(message)
  }

  function ParseMessage(message: string): Parsed {
    var m := Strip0x(message);
    Parsed("0x" + Slice(m, 0, 40),
           "0x" + Slice(m, 40, 40 + 64),
           "0x" + Slice(m, 104, 104 + 64),
           "0x" + Slice(m, 168, 168 + 64))
  }

  /** The four fields of a message that has its parts in place. */
  lemma FieldsOf(a: string, b: string, c: string, d: string)
    requires |a| == 40 && |b| == 64 && |c| == 64 && |d| == 40
    ensures ParseMessage("0x" + a + b + c + d) == Parsed("0x" + a, "0x" + b, "0x" + c, "0x" + d)
  {
    var m := "0x" + a + b + c + d;
    assert m[..2] == "0x";
    assert Strip0x(m) == a + b + c + d;
    var body := a + b + c + d;
    assert body[0..40] == a && body[40..104] == b && body[104..168] == c && body[168..208] == d;
  }

  /**
   A message is created exactly when the fields have their lengths, the value fits 32 bytes, and 104
   bytes are expected.
   */
  lemma CreatesExactly(t: Transfer, expectedMessageLength: nat)
    ensures CreateMessage(t, expectedMessageLength).Some? <==>
            && |Strip0x(t.recipient)| == 40 && |Strip0x(t.transactionHash)| == 64 && |Strip0x(t.bridgeAddress)| == 40
            && t.value < Pow16(64)
            && expectedMessageLength == MESSAGE_LENGTH
  {
    Fits(t.value, 64);
  }

  /** Where a message holds its fields, whichever of them came with a prefix. */
  lemma CreatedLayout(t: Transfer, expectedMessageLength: nat)
    requires CreateMessage(t, expectedMessageLength).Some?
    ensures var m := CreateMessage(t, expectedMessageLength).value;
            && |m| == 210 && m[..2] == "0x"
            && (m[2..42] == t.recipient || "0x" + m[2..42] == t.recipient)
            && AllHex(m[42..106]) && FromHex(m[42..106]) == t.value
            && (m[106..170] == t.transactionHash || "0x" + m[106..170] == t.transactionHash)
            && (m[170..210] == t.bridgeAddress || "0x" + m[170..210] == t.bridgeAddress)
  {
    var value := PadLeft(ToHex(t.value), 64);
    CreatesExactly(t, expectedMessageLength);
    PaddedReadsBack(t.value, 64);
    FieldSlices(Strip0x(t.recipient), value, Strip0x(t.transactionHash), Strip0x(t.bridgeAddress));
    Stripped(t.recipient);
    Stripped(t.transactionHash);
    Stripped(t.bridgeAddress);
  }

  lemma FieldSlices(a: string, b: string, c: string, d: string)
    requires |a| == 40 && |b| == 64 && |c| == 64 && |d| == 40
    ensures var m := "0x" + a + b + c + d;
            && |m| == 210 && m[..2] == "0x"
            && m[2..42] == a && m[42..106] == b && m[106..170] == c && m[170..210] == d
  {
  }

  lemma Stripped(s: string)
    ensures Strip0x(s) == s || "0x" + Strip0x(s) == s
  {
  }

  /** Which parts of a 104-byte message its fields are. */
  lemma ParsedLayout(message: string)
    requires |message| == 210 && message[..2] == "0x"
    ensures ParseMessage(message) == Parsed("0x" + message[2..42], "0x" + message[42..106],
                                            "0x" + message[106..170], "0x" + message[170..210])
  {
    MessageParts(message);
    FieldsOf(message[2..42], message[42..106], message[106..170], message[170..210]);
  }

  lemma PrefixStrips(s: string)
    ensures Strip0x("0x" + s) == s
  {
    assert ("0x" + s)[..2] == "0x" && ("0x" + s)[2..] == s;
  }

  /** Parsing a created message gives back the transfer, its fields prefixed. */
  lemma ParseCreated(t: Transfer, expectedMessageLength: nat)
    requires CreateMessage(t, expectedMessageLength).Some?
    ensures var p := ParseMessage(CreateMessage(t, expectedMessageLength).value);
            && p.recipient == "0x" + Strip0x(t.recipient)
            && p.txHash == "0x" + Strip0x(t.transactionHash)
            && p.contractAddress == "0x" + Strip0x(t.bridgeAddress)
            && AllHex(Strip0x(p.amount)) && FromHex(Strip0x(p.amount)) == t.value
  {
    var value := PadLeft(ToHex(t.value), 64);
    FieldsOf(Strip0x(t.recipient), value, Strip0x(t.transactionHash), Strip0x(t.bridgeAddress));
    PrefixStrips(value);
    PaddedReadsBack(t.value, 64);
  }

  /** Different transfers never share a message. */
  lemma DistinctTransfersDistinctMessages(t: Transfer, u: Transfer, n: nat, m: nat)
    requires CreateMessage(t, n).Some? && CreateMessage(t, n) == CreateMessage(u, m)
    ensures t.value == u.value
    ensures Strip0x(t.recipient) == Strip0x(u.recipient)
    ensures Strip0x(t.transactionHash) == Strip0x(u.transactionHash)
    ensures Strip0x(t.bridgeAddress) == Strip0x(u.bridgeAddress)
  {
    ParseCreated(t, n);
    ParseCreated(u, m);
    SamePrefixed(Strip0x(t.recipient), Strip0x(u.recipient));
    SamePrefixed(Strip0x(t.transactionHash), Strip0x(u.transactionHash));
    SamePrefixed(Strip0x(t.bridgeAddress), Strip0x(u.bridgeAddress));
  }

  lemma SamePrefixed(a: string, b: string)
    ensures "0x" + a == "0x" + b ==> a == b
  {
    assert ("0x" + a)[2..] == a && ("0x" + b)[2..] == b;
  }

  lemma SameMiddle(front: string, x: string, y: string, back: string)
    requires |x| == |y|
    ensures front + x + back == front + y + back <==> x == y
  {
    assert (front + x + back)[|front|..|front|+|x|] == x;
    assert (front + y + back)[|front|..|front|+|y|] == y;
  }

  /** The message made again from what is parsed of it. */
  function Rebuilt(message: string): Option<string>
    requires AllHex(Strip0x(ParseMessage(message).amount))
  {
    var p := ParseMessage(message);
    CreateMessage(Transfer(p.recipient, FromHex(Strip0x(p.amount)), p.txHash, p.contractAddress), MESSAGE_LENGTH)
  }

  lemma RebuiltParts(a: string, b: string, c: string, d: string)
    requires |a| == 40 && |b| == 64 && |c| == 64 && |d| == 40 && AllHex(b)
    ensures var m := "0x" + a + b + c + d;
            && AllHex(Strip0x(ParseMessage(m).amount))
            && Rebuilt(m) == Some("0x" + a + PadLeft(ToHex(FromHex(b)), 64) + c + d)
  {
    FieldsOf(a, b, c, d);
    PrefixStrips(a);
    PrefixStrips(b);
    PrefixStrips(c);
    PrefixStrips(d);
    RewriteExactly(b);
  }

  lemma SameAmount(a: string, x: string, b: string, c: string, d: string)
    requires |x| == |b|
    ensures "0x" + a + x + c + d == "0x" + a + b + c + d <==> x == b
  {
    SameMiddle("0x" + a, x, b, c + d);
    assert "0x" + a + x + c + d == "0x" + a + x + (c + d);
    assert "0x" + a + b + c + d == "0x" + a + b + (c + d);
  }

  lemma MessageParts(m: string)
    requires |m| == 2 + 2 * MESSAGE_LENGTH && m[..2] == "0x"
    ensures m == "0x" + m[2..42] + m[42..106] + m[106..170] + m[170..210]
  {
  }

  /** Rebuilding a 104-byte message from its parsed fields gives it back exactly when its amount is in lower case. */
  lemma RebuildsExactly(message: string)
    requires |message| == 2 + 2 * MESSAGE_LENGTH && message[..2] == "0x" && AllHex(message[42..106])
    ensures AllHex(Strip0x(ParseMessage(message).amount))
    ensures Rebuilt(message) == Some(message) <==> AllLowerHex(message[42..106])
  {
    var a, b, c, d := message[2..42], message[42..106], message[106..170], message[170..210];
    MessageParts(message);
    RebuiltParts(a, b, c, d);
    RewriteExactly(b);
    SameAmount(a, PadLeft(ToHex(FromHex(b)), 64), b, c, d);
  }

  // ---- signatures ----

  datatype VRS = VRS(v: nat, r: string, s: string)

  /** A signature of the right length whose recovery byte is hexadecimal; others are refused. */
  function SignatureToVRS(signature: string): Option<VRS> {
    if |signature| != 2 + 64 + 64 + 2 then None
    else
      var sig := Strip0x(signature);
      var tail := sig[128..];
      if !AllHex(tail) then None
      else Some(VRS(FromHex(tail), "0x" + sig[..64], "0x" + sig[64..128]))
  }

  /** Which parts of a signature `v`, `r` and `s` are; without its recovery byte in hexadecimal it is refused. */
  lemma SignatureLayout(signature: string)
    requires |signature| == 132 && signature[..2] == "0x"
    ensures SignatureToVRS(signature) ==
            if AllHex(signature[130..132])
            then Some(VRS(FromHex(signature[130..132]), "0x" + signature[2..66], "0x" + signature[66..130])) else None
  {
    var sig := signature[2..];
    assert Strip0x(signature) == sig;
    assert sig[128..] == signature[130..132] && sig[..64] == signature[2..66] && sig[64..128] == signature[66..130];
  }

  function JoinVRS(x: VRS): string {
    x.r + Strip0x(x.s) + PadLeft(ToHex(x.v), 2)
  }

  predicate IsSignature(s: string) {
    |s| == 132 && s[..2] == "0x" && AllHex(s[130..])
  }

  /** A signature is recovered from its parts exactly when its recovery byte is in lower case. */
  lemma JoinExactly(signature: string)
    requires IsSignature(signature)
    ensures SignatureToVRS(signature).Some?
    ensures JoinVRS(SignatureToVRS(signature).value) == signature <==> AllLowerHex(signature[130..])
  {
    var sig := signature[2..];
    assert Strip0x(signature) == sig;
    var r, s, tail := sig[..64], sig[64..128], sig[128..];
    assert tail == signature[130..];
    assert ("0x" + s)[..2] == "0x" && ("0x" + s)[2..] == s;
    RewriteExactly(tail);
    assert signature == "0x" + r + s + tail;
    var again := PadLeft(ToHex(FromHex(tail)), 2);
    assert ("0x" + r + s + again)[130..] == again;
  }
}
