/** The 60 bytes a sender signs off chain for one micropayment. */
module SignedMessage {
  import opened Bytes

  datatype Message = Message(receiver: AccountId, nonce: U64, session: U32, amount: U128)

  /** |receiver (32)|nonce (8, big endian)|session (4, big endian)|amount (16, little endian)| */
  function Layout(m: Message): (b: seq<Byte>)
    ensures |b| == 60
  {
    m.receiver + BigEndian(m.nonce, 8) + BigEndian(m.session, 4) + LittleEndian(m.amount, 16)
  }

  function Parse(b: seq<Byte>): Option<Message> {
    if |b| != 60 then None
    else
      Widths();
      BigEndianEncodes(b[32..40]);
      BigEndianEncodes(b[40..44]);
      LittleEndianEncodes(b[44..]);
      Some(Message(b[..32], FromBigEndian(b[32..40]), FromBigEndian(b[40..44]), FromLittleEndian(b[44..])))
  }

  lemma ParseLayout(m: Message)
    ensures Parse(Layout(m)) == Some(m)
  {
    var b := Layout(m);
    assert b[..32] == m.receiver;
    assert b[32..40] == BigEndian(m.nonce, 8);
    assert b[40..44] == BigEndian(m.session, 4);
    assert b[44..] == LittleEndian(m.amount, 16);
    Widths();
    BigEndianDecodes(m.nonce, 8);
    BigEndianDecodes(m.session, 4);
    LittleEndianDecodes(m.amount, 16);
  }

  /** Every 60-byte string is the layout of exactly the message it parses to. */
  lemma LayoutParse(b: seq<Byte>)
    ensures Parse(b).Some? <==> |b| == 60
    ensures Parse(b).Some? ==> Layout(Parse(b).value) == b
  {
    if |b| == 60 {
      BigEndianEncodes(b[32..40]);
      BigEndianEncodes(b[40..44]);
      LittleEndianEncodes(b[44..]);
      assert b == b[..32] + b[32..40] + b[40..44] + b[44..];
    }
  }

  lemma LayoutInjective(m: Message, n: Message)
    ensures Layout(m) == Layout(n) <==> m == n
  {
    ParseLayout(m);
    ParseLayout(n);
  }

  function Reverse(b: seq<Byte>): (r: seq<Byte>)
    ensures |r| == |b|
  {
    if b == [] then [] else Reverse(b[1..]) + [b[0]]
  }

  /** A big number as an array: the digits are produced least significant first and flipped for "be". */
  function ToArray(n: nat, bigEndian: bool, len: nat): seq<Byte> {
    if bigEndian then Reverse(LittleEndian(n, len)) else LittleEndian(n, len)
  }

  /** The bytes the off-chain wallet pushes, in its order. */
  function WalletBytes(addr: AccountId, nonce: U64, session: U32, amount: U128): seq<Byte> {
    [] + addr + ToArray(nonce, true, 8) + ToArray(session, true, 4) + ToArray(amount, false, 16)
  }

  lemma {:induction false} ReversedLittleEndian(n: nat, len: nat)
    ensures Reverse(LittleEndian(n, len)) == BigEndian(n, len)
  {
    if len > 0 {
      ReversedLittleEndian(n / 256, len - 1);
      assert LittleEndian(n, len)[1..] == LittleEndian(n / 256, len - 1);
    }
  }

  /** The wallet and the pallet build the same bytes for the same payment, and only then. */
  lemma WalletAgrees(m: Message, addr: AccountId, nonce: U64, session: U32, amount: U128)
    ensures WalletBytes(addr, nonce, session, amount) == Layout(m)
       <==> m == Message(addr, nonce, session, amount)
  {
    ReversedLittleEndian(nonce, 8);
    ReversedLittleEndian(session, 4);
    assert [] + addr == addr;
    LayoutInjective(m, Message(addr, nonce, session, amount));
  }
}
