/** The recipient a user interface hides in call data, and the validators that dig it out. */
module Calldata {
  import opened Hex

  const ZERO_ADDRESS := "0x" + Zeros(40)
  const TRANSFER_SIGNATURE := "0xa9059cbb"
  const TRANSFER_LENGTH := 202
  const TRANSFER_AND_CALL_SIGNATURE := "0x4000aea0"
  const TRANSFER_AND_CALL_LENGTH := 330

  predicate IsAddress(a: string) {
    |a| == 42 && a[..2] == "0x" && AllHex(a[2..])
  }

  // ---- argument encoding of the Solidity Contract ABI Specification ----

  /** A number as one 32-byte word. */
  function Word(n: nat): (w: string)
    requires n < Pow16(64)
    ensures |w| == 64
  {
    Fits(n, 64);
    PadLeft(ToHex(n), 64)
  }

  function AddressWord(a: string): (w: string)
    requires IsAddress(a)
    ensures |w| == 64
  {
    Zeros(24) + Lower(a[2..])
  }

  /** A `bytes` argument: its length, then its bytes filled up to whole words. The encoder writes lower case. */
  function EncodeBytes(digits: string): string
    requires |digits| / 2 < Pow16(64)
  {
    Word(|digits| / 2) + Lower(digits) + Zeros((64 - |digits| % 64) % 64)
  }

  function EncodeTransfer(to: string, value: nat): (data: string)
    requires IsAddress(to) && value < Pow16(64)
    ensures |data| == 138 && data[..10] == TRANSFER_SIGNATURE
  {
    TRANSFER_SIGNATURE + AddressWord(to) + Word(value)
  }

  /** The data argument is dynamic, so the third word is its offset. */
  function EncodeTransferAndCall(to: string, value: nat, digits: string): string
    requires IsAddress(to) && value < Pow16(64) && |digits| / 2 < Pow16(64)
  {
    OffsetFits();
    TRANSFER_AND_CALL_SIGNATURE + AddressWord(to) + Word(value) + Word(96) + EncodeBytes(digits)
  }

  lemma OffsetFits()
    ensures 96 < Pow16(64)
  {
    assert Pow16(64) == 16 * Pow16(63) == 256 * Pow16(62);
    PowGrows(62);
  }

  // ---- the user interface ----

  function Erc20Transfer(to: string, value: nat, recipient: string): string
    requires IsAddress(to) && value < Pow16(64) && IsAddress(recipient)
  {
    EncodeTransfer(to, value) + "000000000000000000000000" + recipient[2..]
  }

  function Erc677TransferAndCall(to: string, value: nat, recipient: string): string
    requires IsAddress(to) && value < Pow16(64) && IsAddress(recipient)
  {
    OffsetFits();
    var recipientData := "0x000000000000000000000000" + recipient[2..];
    EncodeTransferAndCall(to, value, recipientData[2..])
  }

  // ---- the validator ----

  /** The sender a transfer is credited to: the appended address if the call data has one, else the event's own. */
  function TransferRecipient(input: string, from: string): string {
    if Slice(input, 0, 10) == TRANSFER_SIGNATURE && |input| == TRANSFER_LENGTH then
      var newFrom := "0x" + Slice(input, (1 + 4 + 32 + 32) * 2 + 12 * 2, TRANSFER_LENGTH);
      if newFrom != ZERO_ADDRESS then newFrom else from
    else from
  }

  function TransferAndCallRecipient(input: string, recipient: string): string {
    if Slice(input, 0, 10) == TRANSFER_AND_CALL_SIGNATURE && |input| == TRANSFER_AND_CALL_LENGTH then
      var newRecipient :=
        "0x" + Slice(input, (1 + 4 + 32 + 32 + 32 + 32) * 2 + 12 * 2, TRANSFER_AND_CALL_LENGTH);
      if newRecipient != ZERO_ADDRESS then newRecipient else recipient
    else recipient
  }

  // ---- both sides agree ----

  lemma PadWidth()
    ensures "000000000000000000000000" == Zeros(24)
  {
  }

  lemma PartsOf(signature: string, front: string, back: string)
    requires |signature| == 10 && |back| == 40
    ensures var s := signature + front + back;
            && |s| == 50 + |front|
            && Slice(s, 0, 10) == signature
            && Slice(s, 10 + |front|, 50 + |front|) == back
  {
  }

  /** For every call data: the sender is overridden only in a `transfer` call of 202 characters, by its last 40. */
  lemma TransferRedirectsExactly(input: string, from: string)
    ensures var address := if |input| == 202 then "0x" + input[162..202] else "";
            TransferRecipient(input, from) ==
            if |input| == 202 && input[..10] == "0xa9059cbb" && address != ZERO_ADDRESS then address else from
  {
  }

  /** The same for `transferAndCall`: 330 characters, of which the last 40 count. */
  lemma TransferAndCallRedirectsExactly(input: string, recipient: string)
    ensures var address := if |input| == 330 then "0x" + input[290..330] else "";
            TransferAndCallRecipient(input, recipient) ==
            if |input| == 330 && input[..10] == "0x4000aea0" && address != ZERO_ADDRESS then address else recipient
  {
  }

  /** A `transferFrom` call is exactly as long as a transfer with an address appended, and never redirects. */
  lemma TransferFromKeepsOwn(from: string, to: string, value: nat, own: string)
    requires IsAddress(from) && IsAddress(to) && value < Pow16(64)
    ensures var input := OnChain("0x23b872dd" + AddressWord(from) + AddressWord(to) + Word(value));
            |input| == 202 && TransferRecipient(input, own) == own
  {
    var input := OnChain("0x23b872dd" + AddressWord(from) + AddressWord(to) + Word(value));
    assert input[3] == '3';
    assert input[..10][3] == '3' && "0xa9059cbb"[3] == '9';
    TransferRedirectsExactly(input, own);
  }

  lemma FiveParts(s: string, w: string, v: string, z: string, back: string)
    requires |s| == 10 && |w| == 64 && |v| == 64 && |z| == 24 && |back| == 40
    ensures var data := s + w + v + z + back;
            && |data| == 202 && data[..10] == s && data[10..34] == w[..24] && data[34..74] == w[24..]
            && data[74..138] == v && data[138..162] == z && data[162..202] == back
  {
  }

  lemma SevenParts(s: string, w: string, v: string, x: string, y: string, z: string, back: string)
    requires |s| == 10 && |w| == |v| == |x| == |y| == 64 && |z| == 24 && |back| == 40
    ensures var data := s + w + v + x + y + z + back;
            && |data| == 330 && data[..10] == s && data[10..34] == w[..24] && data[34..74] == w[24..]
            && data[74..138] == v && data[138..202] == x && data[202..266] == y
            && data[266..290] == z && data[290..330] == back
  {
  }

  lemma AddressParts(a: string)
    requires IsAddress(a)
    ensures AddressWord(a)[..24] == Zeros(24) && AddressWord(a)[24..] == Lower(a[2..])
  {
  }

  lemma WordReads(n: nat)
    requires n < Pow16(64)
    ensures AllHex(Word(n)) && FromHex(Word(n)) == n
  {
    PaddedReadsBack(n, 64);
  }

  /** Where the interface's encoding puts the receiver, the amount, and what it appends. */
  lemma TransferLayout(to: string, value: nat, recipient: string)
    requires IsAddress(to) && value < Pow16(64) && IsAddress(recipient)
    ensures var data := Erc20Transfer(to, value, recipient);
            && |data| == 202 && data[..10] == "0xa9059cbb"
            && data[10..34] == Zeros(24) && data[34..74] == Lower(to[2..])
            && AllHex(data[74..138]) && FromHex(data[74..138]) == value
            && data[138..162] == Zeros(24) && data[162..202] == recipient[2..]
  {
    TransferParts(to, value, recipient);
    AddressParts(to);
    WordReads(value);
    var word, back := AddressWord(to), recipient[2..];
    assert Erc20Transfer(to, value, recipient) == TRANSFER_SIGNATURE + word + Word(value) + Zeros(24) + back;
    FiveParts(TRANSFER_SIGNATURE, word, Word(value), Zeros(24), back);
  }

  /** Where the ABI encoding of `transferAndCall` puts its words: receiver, amount, offset, length, data. */
  lemma TransferAndCallLayout(to: string, value: nat, recipient: string)
    requires IsAddress(to) && value < Pow16(64) && IsAddress(recipient)
    ensures var data := Erc677TransferAndCall(to, value, recipient);
            && |data| == 330 && data[..10] == "0x4000aea0"
            && data[10..34] == Zeros(24) && data[34..74] == Lower(to[2..])
            && AllHex(data[74..138]) && FromHex(data[74..138]) == value
            && AllHex(data[138..202]) && FromHex(data[138..202]) == 96
            && AllHex(data[202..266]) && FromHex(data[202..266]) == 32
            && data[266..290] == Zeros(24) && data[290..330] == Lower(recipient[2..])
  {
    EncodedCall(to, value, recipient);
    OffsetFits();
    AddressParts(to);
    WordReads(value);
    WordReads(96);
    WordReads(32);
    var word, back := AddressWord(to), Lower(recipient[2..]);
    assert Erc677TransferAndCall(to, value, recipient) ==
           TRANSFER_AND_CALL_SIGNATURE + word + Word(value) + Word(96) + Word(32) + Zeros(24) + back;
    SevenParts(TRANSFER_AND_CALL_SIGNATURE, word, Word(value), Word(96), Word(32), Zeros(24), back);
  }

  /** A node hands the call data of a transaction back in lower case. */
  function OnChain(data: string): (input: string)
    ensures |input| == |data|
  {
    Lower(data)
  }

  lemma LowerConcat(a: string, b: string)
    ensures Lower(a + b) == Lower(a) + Lower(b)
  {
  }

  lemma PartsOnChain(signature: string, front: string, back: string)
    requires |signature| == 10 && |back| == 40 && Lower(signature) == signature
    ensures var s := OnChain(signature + front + back);
            && |s| == 50 + |front|
            && Slice(s, 0, 10) == signature
            && Slice(s, 10 + |front|, 50 + |front|) == Lower(back)
  {
    LowerConcat(signature + front, back);
    LowerConcat(signature, front);
    PartsOf(signature, Lower(front), Lower(back));
  }

  lemma TransferParts(to: string, value: nat, recipient: string)
    requires IsAddress(to) && value < Pow16(64) && IsAddress(recipient)
    ensures Erc20Transfer(to, value, recipient) ==
            TRANSFER_SIGNATURE + (AddressWord(to) + Word(value) + Zeros(24)) + recipient[2..]
  {
    PadWidth();
  }

  /**
   The appended recipient comes back from the chain in lower case, or the event's own address when it
   is zero; before the chain it is there letter for letter.
   */
  lemma TransferRoundTrip(to: string, value: nat, recipient: string, own: string)
    requires IsAddress(to) && value < Pow16(64) && IsAddress(recipient)
    ensures var input := OnChain(Erc20Transfer(to, value, recipient));
            && |input| == TRANSFER_LENGTH
            && TransferRecipient(input, own) ==
               if recipient == ZERO_ADDRESS then own else "0x" + Lower(recipient[2..])
    ensures TransferRecipient(Erc20Transfer(to, value, recipient), own) ==
            if recipient == ZERO_ADDRESS then own else recipient
  {
    var front := AddressWord(to) + Word(value) + Zeros(24);
    TransferParts(to, value, recipient);
    PartsOf(TRANSFER_SIGNATURE, front, recipient[2..]);
    PartsOnChain(TRANSFER_SIGNATURE, front, recipient[2..]);
    LowerZero(recipient);
    assert recipient == "0x" + recipient[2..];
  }

  /** A transfer call with nothing appended never redirects. */
  lemma PlainTransferKeepsOwn(to: string, value: nat, own: string)
    requires IsAddress(to) && value < Pow16(64)
    ensures TransferRecipient(OnChain(EncodeTransfer(to, value)), own) == own
  {
  }

  lemma LowerZero(a: string)
    requires IsAddress(a)
    ensures "0x" + Lower(a[2..]) == ZERO_ADDRESS <==> a == ZERO_ADDRESS
  {
    assert a == "0x" + a[2..];
    var l := Lower(a[2..]);
    if "0x" + l == ZERO_ADDRESS {
      assert ("0x" + l)[2..] == l && ZERO_ADDRESS[2..] == Zeros(40);
      forall i | 0 <= i < 40 ensures a[2..][i] == '0' {
        assert l[i] == '0';
      }
      assert a[2..] == Zeros(40);
    }
    if a == ZERO_ADDRESS {
      assert a[2..] == Zeros(40);
      assert l == Zeros(40);
    }
  }

  /** The data argument is one word, so it is not filled up. */
  lemma EncodedData(recipient: string)
    requires IsAddress(recipient)
    ensures 32 < Pow16(64)
    ensures EncodeBytes(("0x000000000000000000000000" + recipient[2..])[2..]) ==
            Word(32) + (Zeros(24) + Lower(recipient[2..]))
  {
    OffsetFits();
    var digits := ("0x000000000000000000000000" + recipient[2..])[2..];
    assert digits == Zeros(24) + recipient[2..];
    assert Lower(digits) == Zeros(24) + Lower(recipient[2..]);
    assert EncodeBytes(digits) == Word(32) + Lower(digits) + Zeros(0);
  }

  /** Everything between the selector and the recipient. */
  function CallFront(to: string, value: nat): (front: string)
    requires IsAddress(to) && value < Pow16(64)
    ensures |front| == 280
  {
    OffsetFits();
    AddressWord(to) + Word(value) + Word(96) + Word(32) + Zeros(24)
  }

  lemma EncodedCall(to: string, value: nat, recipient: string)
    requires IsAddress(to) && value < Pow16(64) && IsAddress(recipient)
    ensures Erc677TransferAndCall(to, value, recipient) ==
            TRANSFER_AND_CALL_SIGNATURE + CallFront(to, value) + Lower(recipient[2..])
  {
    OffsetFits();
    EncodedData(recipient);
  }

  lemma LowerTwice(a: string)
    ensures Lower(Lower(a)) == Lower(a)
  {
  }

  /** The encoded recipient comes back from the chain in lower case, or the event's own address when it is zero. */
  lemma TransferAndCallRoundTrip(to: string, value: nat, recipient: string, own: string)
    requires IsAddress(to) && value < Pow16(64) && IsAddress(recipient)
    ensures var input := OnChain(Erc677TransferAndCall(to, value, recipient));
            && |input| == TRANSFER_AND_CALL_LENGTH
            && TransferAndCallRecipient(input, own) ==
               if recipient == ZERO_ADDRESS then own else "0x" + Lower(recipient[2..])
  {
    var back := Lower(recipient[2..]);
    EncodedCall(to, value, recipient);
    PartsOnChain(TRANSFER_AND_CALL_SIGNATURE, CallFront(to, value), back);
    LowerTwice(recipient[2..]);
    LowerZero(recipient);
  }
}
