/** The pure parts of the KRC-20 commit/reveal transfer
    (src/utils/transfer.ts): the inscription payload, the redeem script
    that carries it, the commit and reveal transaction plans handed to
    `createTransactions`, and the choice of the reveal input that gets the
    P2SH unlocking script. The ledger library (address derivation, P2SH
    hashing, coin selection, signing) is left as parameters. */
module Inscription {
  import opened Text
  import opened Json

  /** Amounts in sompi; 1 KAS is 100 000 000 sompi. */
  type Sompi = nat

  const SompiPerKas: Sompi := 100_000_000
  /** `kaspaToSompi("0.3")`: the value locked in the P2SH output. */
  const CommitAmount: Sompi := 30_000_000
  /** `kaspaToSompi(gasFee.toString())` with `gasFee = 0.3`: the reveal's
      priority fee. */
  const RevealFee: Sompi := 30_000_000

  /** The payload's members, in the order the object literal lists them. */
  function PayloadFields(ticker: string, amount: string, dest: string): (r: seq<(string, Value)>)
    ensures |r| == 5 && AllStrings(r)
  {
    [("p", Str("krc-20")), ("op", Str("transfer")), ("tick", Str(ticker)), ("amt", Str(amount)), ("to", Str(dest))]
  }

  /** `JSON.stringify(data, null, 0)`: no whitespace, keys in literal order. */
  function Payload(ticker: string, amount: string, dest: string): string {
    Object(PayloadFields(ticker, amount, dest))
  }

  /** An indexer reading the payload back finds the transfer's members. */
  lemma PayloadReadsBack(ticker: string, amount: string, dest: string)
    ensures ReadObject(Payload(ticker, amount, dest)) == Some(PayloadFields(ticker, amount, dest))
  {
    ReadObjectRoundTrip(PayloadFields(ticker, amount, dest));
  }

  /** Different transfers have different payloads. */
  lemma PayloadInjective(t1: string, a1: string, d1: string, t2: string, a2: string, d2: string)
    requires Payload(t1, a1, d1) == Payload(t2, a2, d2)
    ensures t1 == t2 && a1 == a2 && d1 == d2
  {
    PayloadReadsBack(t1, a1, d1);
    PayloadReadsBack(t2, a2, d2);
    assert PayloadFields(t1, a1, d1) == PayloadFields(t2, a2, d2);
    assert PayloadFields(t1, a1, d1)[2] == PayloadFields(t2, a2, d2)[2];
    assert PayloadFields(t1, a1, d1)[3] == PayloadFields(t2, a2, d2)[3];
    assert PayloadFields(t1, a1, d1)[4] == PayloadFields(t2, a2, d2)[4];
  }

  datatype Opcode = OpCheckSig | OpFalse | OpIf | OpEndIf

  /** A script element: a push of hex-given data, a push of a string's
      bytes, a push of a 64-bit integer, or an opcode. */
  datatype ScriptItem = PushHex(hex: string) | PushText(text: string) | PushI64(n: int) | Op(code: Opcode)

  const Protocol: string := "kasplex"

  /** The redeem script the `ScriptBuilder` chain produces. */
  function RedeemScript(xOnlyKey: string, ticker: string, amount: string, dest: string): (r: seq<ScriptItem>)
    ensures |r| == 8
    ensures r[0] == PushHex(xOnlyKey) && r[1] == Op(OpCheckSig) && r[2] == Op(OpFalse) && r[3] == Op(OpIf)
    ensures r[4] == PushText(Protocol) && r[5] == PushI64(0) && r[7] == Op(OpEndIf)
    ensures r[6] == PushText(Payload(ticker, amount, dest))
  {
    [PushHex(xOnlyKey), Op(OpCheckSig), Op(OpFalse), Op(OpIf), PushText(Protocol), PushI64(0),
     PushText(Payload(ticker, amount, dest)), Op(OpEndIf)]
  }

  /** What an indexer takes from a script of this shape — a key check
      followed by an `OP_FALSE OP_IF … OP_ENDIF` envelope holding a
      protocol push, a zero and a content push: the key, the protocol tag
      and the content. Any other script carries no inscription. */
  function ReadEnvelope(script: seq<ScriptItem>): Option<(string, string, string)>
  {
    if && |script| == 8 && script[0].PushHex? && script[1] == Op(OpCheckSig) && script[2] == Op(OpFalse)
       && script[3] == Op(OpIf) && script[4].PushText? && script[5] == PushI64(0) && script[6].PushText?
       && script[7] == Op(OpEndIf)
    then Some((script[0].hex, script[4].text, script[6].text))
    else None
  }

  /** An indexer reading the script finds the signer's key, the
      "kasplex" tag, and a content that reads back as the transfer's
      members. */
  lemma ScriptCarriesTransfer(xOnlyKey: string, ticker: string, amount: string, dest: string)
    ensures ReadEnvelope(RedeemScript(xOnlyKey, ticker, amount, dest))
         == Some((xOnlyKey, Protocol, Payload(ticker, amount, dest)))
    ensures ReadObject(ReadEnvelope(RedeemScript(xOnlyKey, ticker, amount, dest)).value.2)
         == Some(PayloadFields(ticker, amount, dest))
  {
    PayloadReadsBack(ticker, amount, dest);
  }

  /** The script determines the key and the transfer: two transfers get
      the same script only when they agree on all four. */
  lemma RedeemScriptInjective(k1: string, t1: string, a1: string, d1: string,
                              k2: string, t2: string, a2: string, d2: string)
    requires RedeemScript(k1, t1, a1, d1) == RedeemScript(k2, t2, a2, d2)
    ensures k1 == k2 && t1 == t2 && a1 == a2 && d1 == d2
  {
    ScriptCarriesTransfer(k1, t1, a1, d1);
    ScriptCarriesTransfer(k2, t2, a2, d2);
    PayloadInjective(t1, a1, d1, t2, a2, d2);
  }

  /** A spendable output of the ledger, as the UTXO queries report it. */
  datatype Utxo = Utxo(transactionId: string, index: nat, address: string, amount: Sompi)

  datatype Output = Output(address: string, amount: Sompi)

  /** The settings passed to `createTransactions`. The priority entries are
      optional because `entries[0]` of an empty answer is `undefined`. */
  datatype Plan = Plan(
    priorityEntries: seq<Option<Utxo>>, entries: seq<Utxo>, outputs: seq<Output>,
    changeAddress: string, priorityFee: Sompi, networkId: string)

  /** The commit: fund the P2SH address with 0.3 KAS from the signer's
      coins, change back to the signer. */
  function CommitPlan(entries: seq<Utxo>, p2sh: string, signer: string, priorityFee: Sompi, network: string): (r: Plan)
    ensures r.priorityEntries == [] && r.entries == entries
    ensures r.outputs == [Output(p2sh, CommitAmount)]
    ensures r.changeAddress == signer && r.priorityFee == priorityFee && r.networkId == network
  {
    Plan([], entries, [Output(p2sh, CommitAmount)], signer, priorityFee, network)
  }

  /** The first element of a list, `undefined` for an empty one. */
  function First(s: seq<Utxo>): (r: Option<Utxo>)
    ensures r.None? <==> s == []
    ensures r.Some? ==> r.value == s[0]
  {
    if s == [] then None else Some(s[0])
  }

  /** The reveal: no requested outputs, the first P2SH coin forced in as
      the only priority entry, everything back to the signer as change. */
  function RevealPlan(entries: seq<Utxo>, p2shEntries: seq<Utxo>, signer: string, network: string): (r: Plan)
    ensures r.outputs == [] && r.entries == entries
    ensures |r.priorityEntries| == 1 && r.priorityEntries[0] == First(p2shEntries)
    ensures r.changeAddress == signer && r.priorityFee == RevealFee && r.networkId == network
  {
    Plan([First(p2shEntries)], entries, [], signer, RevealFee, network)
  }

  /** The reveal spends what the commit locked: the commit pays exactly
      0.3 KAS to the P2SH address and asks for nothing else; the reveal
      asks for no outputs and forces in, as its one priority entry, the
      first coin the P2SH query returned, so that after its fee everything
      comes back to the signer, where both send their change. That this
      coin sits at the commit's address is not derived: the query's
      answer is a ledger answer, and the lemma assumes it of that answer. */
  lemma RevealSpendsCommitAddress(commitEntries: seq<Utxo>, entries: seq<Utxo>, p2shEntries: seq<Utxo>,
                                  p2sh: string, signer: string, fee: Sompi, network: string)
    requires p2shEntries != [] && p2shEntries[0].address == p2sh
    ensures var commit := CommitPlan(commitEntries, p2sh, signer, fee, network);
      var revealPlan := RevealPlan(entries, p2shEntries, signer, network);
      && commit.priorityEntries == [] && commit.outputs == [Output(p2sh, CommitAmount)]
      && revealPlan.outputs == [] && revealPlan.priorityEntries == [Some(p2shEntries[0])]
      && revealPlan.priorityEntries[0].value.address == commit.outputs[0].address
      && revealPlan.priorityFee == RevealFee
      && commit.changeAddress == revealPlan.changeAddress == signer
  {
  }

  /** A transaction input; the signer leaves the P2SH input's script empty. */
  datatype Input = Input(previous: Utxo, signatureScript: string)

  /** `inputs.findIndex(input => input.signatureScript === '')` */
  function FirstUnsigned(inputs: seq<Input>): (r: Option<nat>)
    ensures r.None? <==> forall j :: 0 <= j < |inputs| ==> inputs[j].signatureScript != ""
    ensures r.Some? ==> r.value < |inputs| && inputs[r.value].signatureScript == ""
    ensures r.Some? ==> forall j :: 0 <= j < r.value ==> inputs[j].signatureScript != ""
    decreases |inputs|
  {
    if inputs == [] then None
    else if inputs[0].signatureScript == "" then Some(0)
    else
      var rest := FirstUnsigned(inputs[1..]);
      if rest.None? then None else Some(rest.value + 1)
  }

  /** The reveal's inputs after the fill step: the first unsigned input
      gets the unlocking script built for its index (signature and P2SH
      encoding are the parameter `unlock`); nothing else changes. */
  function FillReveal(inputs: seq<Input>, unlock: nat -> string): (r: seq<Input>)
    ensures |r| == |inputs|
    ensures FirstUnsigned(inputs).None? ==> r == inputs
    ensures FirstUnsigned(inputs).Some? ==>
      var i := FirstUnsigned(inputs).value;
      && r[i] == inputs[i].(signatureScript := unlock(i))
      && forall j :: 0 <= j < |inputs| && j != i ==> r[j] == inputs[j]
  {
    match FirstUnsigned(inputs)
    case None => inputs
    case Some(i) => inputs[i := inputs[i].(signatureScript := unlock(i))]
  }

  /** Only one input is ever filled, and it is the earliest unsigned one:
      every input that changed was unsigned, and no unsigned input comes
      before it. */
  lemma FillTouchesFirstUnsignedOnly(inputs: seq<Input>, unlock: nat -> string, j: nat, k: nat)
    requires j < |inputs| && k < |inputs|
    requires FillReveal(inputs, unlock)[j] != inputs[j] && FillReveal(inputs, unlock)[k] != inputs[k]
    ensures j == k && inputs[j].signatureScript == ""
    ensures forall m :: 0 <= m < j ==> inputs[m].signatureScript != ""
  {
  }
}
