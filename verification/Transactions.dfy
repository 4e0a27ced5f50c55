/**
 * Preparing and sending a transaction (`_prepareTx` and `send` in
 * `client-v2/src/utils/tx.ts`): the compute budget instructions put in front, the
 * blockhash, the signatures, and the retries.
 */
module Transactions {
  import opened Options
  import opened LittleEndian

  datatype Instruction = Instruction(program: string, data: seq<nat>)

  const ComputeBudget := "ComputeBudget111111111111111111111111111111"

  /** A compute budget instruction with the given first byte of data. */
  predicate IsBudget(ix: Instruction, code: nat) {
    ix.program == ComputeBudget && |ix.data| > 0 && ix.data[0] == code
  }

  predicate IsPrice(ix: Instruction) { IsBudget(ix, 3) }

  predicate IsLimit(ix: Instruction) { IsBudget(ix, 2) }

  function SetPrice(fee: nat): (ix: Instruction)
    ensures IsPrice(ix) && !IsLimit(ix)
  {
    Instruction(ComputeBudget, [3] + Bytes(fee, 8))
  }

  function SetLimit(units: nat): (ix: Instruction)
    ensures IsLimit(ix) && !IsPrice(ix)
  {
    Instruction(ComputeBudget, [2] + Bytes(units, 4))
  }

  predicate HasPrice(ixs: seq<Instruction>) {
    exists i :: 0 <= i < |ixs| && IsPrice(ixs[i])
  }

  predicate HasLimit(ixs: seq<Instruction>) {
    exists i :: 0 <= i < |ixs| && IsLimit(ixs[i])
  }

  /** A fee or a limit of zero asks for no instruction. */
  function WithPrice(ixs: seq<Instruction>, fee: nat): seq<Instruction> {
    if HasPrice(ixs) || fee == 0 then ixs else [SetPrice(fee)] + ixs
  }

  function WithLimit(ixs: seq<Instruction>, units: nat): seq<Instruction> {
    if units == 0 || HasLimit(ixs) then ixs else [SetLimit(units)] + ixs
  }

  function Prepared(ixs: seq<Instruction>, fee: nat, units: nat): seq<Instruction> {
    WithLimit(WithPrice(ixs, fee), units)
  }

  /** What a signature covers. */
  datatype Signature = Signature(instructions: seq<Instruction>, blockhash: string)

  /** By signer: signing again replaces what the signer signed before. */
  type Signatures = map<string, Signature>

  /** What goes to the cluster. */
  datatype Message = Message(instructions: seq<Instruction>, blockhash: string, feePayer: string,
                             signatures: Signatures)

  datatype Outcome = Sent(hash: string) | Retryable | Refused(error: string)

  /**
   * What one call of `send` meets: the wallet connected then, the priority fee,
   * the two blockhashes it may use, and the cluster's answer.
   */
  datatype Attempt = Attempt(current: Option<string>, fee: nat, cached: string, latest: string, outcome: Outcome)

  datatype SendOptions = SendOptions(computeUnitLimit: nat, forceFresh: bool, signers: seq<string>,
                                     wallet: Option<string>)

  /** `opts?.wallet ?? PgWallet.current` */
  function WalletAt(options: SendOptions, attempt: Attempt): Option<string> {
    if options.wallet.Some? then options.wallet else attempt.current
  }

  function Signed(signatures: Signatures, signers: seq<string>, signature: Signature): Signatures {
    signatures + map signer | signer in signers :: signature
  }

  lemma SignedByOneMore(signatures: Signatures, signers: seq<string>, i: nat, signature: Signature)
    requires i < |signers|
    ensures Signed(signatures, signers[..i + 1], signature)
        == Signed(signatures, signers[..i], signature)[signers[i] := signature]
  {
    assert signers[..i + 1] == signers[..i] + [signers[i]];
  }

  /** The instructions after preparing for each of the attempts in turn. */
  function After(ixs: seq<Instruction>, attempts: seq<Attempt>, units: nat): seq<Instruction> {
    if attempts == [] then ixs
    else
      var n := |attempts| - 1;
      Prepared(After(ixs, attempts[..n], units), attempts[n].fee, units)
  }

  /** The first fee that is not zero, or zero. */
  function FirstFee(attempts: seq<Attempt>): nat {
    if attempts == [] then 0
    else
      var n := |attempts| - 1;
      var before := FirstFee(attempts[..n]);
      if before != 0 then before else attempts[n].fee
  }

  /** What is in front of the original instructions once the attempts have been prepared for. */
  function Prefix(ixs: seq<Instruction>, attempts: seq<Attempt>, units: nat): (prefix: seq<Instruction>)
    ensures forall i | 0 <= i < |prefix| :: IsPrice(prefix[i]) || IsLimit(prefix[i])
  {
    var price := if HasPrice(ixs) || FirstFee(attempts) == 0 then [] else [SetPrice(FirstFee(attempts))];
    var limit := if HasLimit(ixs) || units == 0 || attempts == [] then [] else [SetLimit(units)];
    if attempts != [] && attempts[0].fee == 0 then price + limit else limit + price
  }

  lemma HasAfterPrefix(prefix: seq<Instruction>, ixs: seq<Instruction>)
    ensures HasPrice(prefix + ixs) <==> HasPrice(prefix) || HasPrice(ixs)
    ensures HasLimit(prefix + ixs) <==> HasLimit(prefix) || HasLimit(ixs)
  {
    var all := prefix + ixs;
    assert forall i | 0 <= i < |prefix| :: all[i] == prefix[i];
    assert forall i | 0 <= i < |ixs| :: all[|prefix| + i] == ixs[i];
    if HasPrice(ixs) { var i :| 0 <= i < |ixs| && IsPrice(ixs[i]); assert IsPrice(all[|prefix| + i]); }
    if HasLimit(ixs) { var i :| 0 <= i < |ixs| && IsLimit(ixs[i]); assert IsLimit(all[|prefix| + i]); }
    if HasPrice(prefix) { var i :| 0 <= i < |prefix| && IsPrice(prefix[i]); assert IsPrice(all[i]); }
    if HasLimit(prefix) { var i :| 0 <= i < |prefix| && IsLimit(prefix[i]); assert IsLimit(all[i]); }
  }

  lemma PrefixHas(ixs: seq<Instruction>, attempts: seq<Attempt>, units: nat)
    ensures HasPrice(Prefix(ixs, attempts, units)) <==> !HasPrice(ixs) && FirstFee(attempts) != 0
    ensures HasLimit(Prefix(ixs, attempts, units)) <==> !HasLimit(ixs) && units != 0 && attempts != []
  {
    var prefix := Prefix(ixs, attempts, units);
    hide FirstFee, SetPrice, SetLimit, HasPrice, HasLimit;
    var price := if HasPrice(ixs) || FirstFee(attempts) == 0 then [] else [SetPrice(FirstFee(attempts))];
    var limit := if HasLimit(ixs) || units == 0 || attempts == [] then [] else [SetLimit(units)];
    HasAfterPrefix(price, limit);
    HasAfterPrefix(limit, price);
    OnlyPrice(price);
    OnlyLimit(limit);
  }

  lemma OnlyPrice(prefix: seq<Instruction>)
    requires |prefix| <= 1 && forall i | 0 <= i < |prefix| :: IsPrice(prefix[i]) && !IsLimit(prefix[i])
    ensures (HasPrice(prefix) <==> prefix != []) && !HasLimit(prefix)
  {
    assert prefix != [] ==> IsPrice(prefix[0]);
  }

  lemma OnlyLimit(prefix: seq<Instruction>)
    requires |prefix| <= 1 && forall i | 0 <= i < |prefix| :: IsLimit(prefix[i]) && !IsPrice(prefix[i])
    ensures (HasLimit(prefix) <==> prefix != []) && !HasPrice(prefix)
  {
    assert prefix != [] ==> IsLimit(prefix[0]);
  }

  /** However many times it is prepared, a transaction is its original instructions behind one prefix. */
  lemma {:induction false} PreparedIsPrefixed(ixs: seq<Instruction>, attempts: seq<Attempt>, units: nat)
    ensures After(ixs, attempts, units) == Prefix(ixs, attempts, units) + ixs
  {
    hide Prefix, Prepared, After;
    if attempts == [] {
      PreparedForNone(ixs, units);
    } else {
      var n := |attempts| - 1;
      var before := attempts[..n];
      assert attempts == before + [attempts[n]];
      PreparedIsPrefixed(ixs, before, units);
      PreparedForLast(ixs, before, attempts[n], units);
      PrefixGrows(ixs, before, attempts[n], units);
    }
  }

  lemma PreparedForNone(ixs: seq<Instruction>, units: nat)
    ensures After(ixs, [], units) == ixs == Prefix(ixs, [], units) + ixs
  {}

  lemma PreparedForLast(ixs: seq<Instruction>, before: seq<Attempt>, last: Attempt, units: nat)
    ensures After(ixs, before + [last], units) == Prepared(After(ixs, before, units), last.fee, units)
  {}

  lemma PricedBehind(prefix: seq<Instruction>, ixs: seq<Instruction>, fee: nat)
    ensures
      var priced := if HasPrice(prefix) || HasPrice(ixs) || fee == 0 then prefix else [SetPrice(fee)] + prefix;
      WithPrice(prefix + ixs, fee) == priced + ixs && (HasLimit(priced) <==> HasLimit(prefix))
  {
    HasAfterPrefix(prefix, ixs);
    HasAfterPrefix([SetPrice(fee)], prefix);
    OnlyPrice([SetPrice(fee)]);
    hide HasPrice, HasLimit, SetPrice;
    assert [SetPrice(fee)] + (prefix + ixs) == [SetPrice(fee)] + prefix + ixs;
  }

  lemma LimitedBehind(prefix: seq<Instruction>, ixs: seq<Instruction>, units: nat)
    ensures
      var limited := if units == 0 || HasLimit(prefix) || HasLimit(ixs) then prefix else [SetLimit(units)] + prefix;
      WithLimit(prefix + ixs, units) == limited + ixs
  {
    HasAfterPrefix(prefix, ixs);
    hide HasLimit, SetLimit;
    assert [SetLimit(units)] + (prefix + ixs) == [SetLimit(units)] + prefix + ixs;
  }

  lemma PrefixGrows(ixs: seq<Instruction>, before: seq<Attempt>, last: Attempt, units: nat)
    ensures Prepared(Prefix(ixs, before, units) + ixs, last.fee, units) == Prefix(ixs, before + [last], units) + ixs
  {
    hide WithPrice, WithLimit, Prefix, HasPrice, HasLimit, SetPrice, SetLimit;
    var prefix := Prefix(ixs, before, units);
    PricedBehind(prefix, ixs, last.fee);
    var priced := if HasPrice(prefix) || HasPrice(ixs) || last.fee == 0 then prefix else [SetPrice(last.fee)] + prefix;
    LimitedBehind(priced, ixs, units);
    PrefixHas(ixs, before, units);
    NextPrefix(ixs, before, last, units);
  }

  /** The next prefix in terms of the last one. */
  lemma NextPrefix(ixs: seq<Instruction>, before: seq<Attempt>, last: Attempt, units: nat)
    ensures
      var prefix := Prefix(ixs, before, units);
      var priced := if FirstFee(before) != 0 || HasPrice(ixs) || last.fee == 0 then prefix
          else [SetPrice(last.fee)] + prefix;
      Prefix(ixs, before + [last], units)
        == if units == 0 || before != [] || HasLimit(ixs) then priced else [SetLimit(units)] + priced
  {}

  /** The prefix holds at most one price and one limit, each only if the original had none. */
  lemma PrefixHoldsOneOfEach(ixs: seq<Instruction>, attempts: seq<Attempt>, units: nat)
    ensures
      var prefix := Prefix(ixs, attempts, units);
      && (forall i, j | 0 <= i < j < |prefix| ::
          !(IsPrice(prefix[i]) && IsPrice(prefix[j])) && !(IsLimit(prefix[i]) && IsLimit(prefix[j])))
      && (HasPrice(ixs) ==> !HasPrice(prefix))
      && (HasLimit(ixs) ==> !HasLimit(prefix))
  {}

  // -- Sending ---------------------------------------------------------------

  /** How a `send` ends; `Retrying` if it still retries when the attempts run out. */
  datatype Result = NotConnected | Retrying | Accepted(hash: string) | Rejected(error: string)

  /** What an attempt sends, from the wallet it finds */
  function MessageAt(ixs: seq<Instruction>, signatures: Signatures, attempts: seq<Attempt>, options: SendOptions,
                     k: nat): Message
    requires k < |attempts| && WalletAt(options, attempts[k]).Some?
  {
    var wallet := WalletAt(options, attempts[k]).value;
    var instructions := After(ixs, attempts[..k + 1], options.computeUnitLimit);
    var blockhash := if k > 0 || options.forceFresh then attempts[k].latest else attempts[k].cached;
    Message(instructions, blockhash, wallet,
            Signed(if k == 0 then signatures else map[], options.signers + [wallet],
                   Signature(instructions, blockhash)))
  }

  /** What the first `n` attempts send, in order. */
  function Messages(ixs: seq<Instruction>, signatures: Signatures, attempts: seq<Attempt>, options: SendOptions, n: nat)
    : (sent: seq<Message>)
    requires n <= |attempts| && forall k | 0 <= k < n :: WalletAt(options, attempts[k]).Some?
    ensures |sent| == n
  {
    if n == 0 then []
    else
      Messages(ixs, signatures, attempts, options, n - 1) + [MessageAt(ixs, signatures, attempts, options, n - 1)]
  }

  lemma {:induction false} MessagesAt(ixs: seq<Instruction>, signatures: Signatures, attempts: seq<Attempt>,
                                      options: SendOptions, n: nat, k: nat)
    requires k < n <= |attempts| && forall i | 0 <= i < n :: WalletAt(options, attempts[i]).Some?
    ensures Messages(ixs, signatures, attempts, options, n)[k] == MessageAt(ixs, signatures, attempts, options, k)
  {
    hide MessageAt, WalletAt;
    if k < n - 1 { MessagesAt(ixs, signatures, attempts, options, n - 1, k); }
  }

  /**
   * Every message carries the original instructions behind its prefix, is paid by
   * the wallet given, or else by the one connected at its attempt, and has that
   * wallet's signature and each signer's over that very message. The first one
   * uses the blockhash at hand unless it is told to fetch one, and keeps what
   * others signed before; every retry uses one fetched for it and has no other
   * signature.
   */
  lemma SentMessages(ixs: seq<Instruction>, signatures: Signatures, attempts: seq<Attempt>, options: SendOptions,
                     n: nat, k: nat)
    requires k < n <= |attempts| && forall i | 0 <= i < n :: WalletAt(options, attempts[i]).Some?
    requires options.wallet.Some? || attempts[k].current.Some?
    ensures var message := Messages(ixs, signatures, attempts, options, n)[k];
            var wallet := if options.wallet.Some? then options.wallet.value else attempts[k].current.value;
            && message.feePayer == wallet
            && message.instructions == Prefix(ixs, attempts[..k + 1], options.computeUnitLimit) + ixs
            && message.blockhash == (if k == 0 && !options.forceFresh then attempts[k].cached else attempts[k].latest)
            && (forall signer | signer in options.signers + [wallet] ::
                  && signer in message.signatures
                  && message.signatures[signer] == Signature(message.instructions, message.blockhash))
            && (forall signer | signer !in options.signers + [wallet] ::
                  if k == 0
                  then && (signer in message.signatures <==> signer in signatures)
                       && (signer in signatures ==> message.signatures[signer] == signatures[signer])
                  else signer !in message.signatures)
  {
    MessagesAt(ixs, signatures, attempts, options, n, k);
    PreparedIsPrefixed(ixs, attempts[..k + 1], options.computeUnitLimit);
    hide Messages, After, Prefix;
  }

  /** The instructions put in front carry what was asked for. */
  lemma BudgetCarriesItsNumber(fee: nat, units: nat)
    requires fee < Pow256(8) && units < Pow256(4)
    ensures SetPrice(fee).program == SetLimit(units).program == "ComputeBudget111111111111111111111111111111"
    ensures |SetPrice(fee).data| == 9 && SetPrice(fee).data[0] == 3 && Value(SetPrice(fee).data[1..]) == fee
    ensures |SetLimit(units).data| == 5 && SetLimit(units).data[0] == 2 && Value(SetLimit(units).data[1..]) == units
  {
    ValueOfBytes(fee, 8);
    ValueOfBytes(units, 4);
    hide Bytes, Value, Pow256;
    assert SetPrice(fee).data[1..] == Bytes(fee, 8) && SetLimit(units).data[1..] == Bytes(units, 4);
  }

  lemma MessageIs(ixs: seq<Instruction>, signatures: Signatures, attempts: seq<Attempt>, options: SendOptions, k: nat,
                  message: Message)
    requires k < |attempts| && WalletAt(options, attempts[k]) == Some(message.feePayer)
    requires message.instructions == After(ixs, attempts[..k + 1], options.computeUnitLimit)
    requires message.blockhash == if k > 0 || options.forceFresh then attempts[k].latest else attempts[k].cached
    requires message.signatures == Signed(if k == 0 then signatures else map[], options.signers + [message.feePayer],
                                          Signature(message.instructions, message.blockhash))
    ensures message == MessageAt(ixs, signatures, attempts, options, k)
  {}

  class Transaction {
    var instructions: seq<Instruction>
    var recentBlockhash: string
    var feePayer: string
    var signatures: Signatures

    constructor (ixs: seq<Instruction>)
      ensures instructions == ixs && signatures == map[]
    {
      instructions, signatures, recentBlockhash, feePayer := ixs, map[], "", "";
    }

    method Find(code: nat) returns (found: bool)
      ensures found <==> exists i :: 0 <= i < |instructions| && IsBudget(instructions[i], code)
    {
      found := false;
      for i := 0 to |instructions|
        invariant found <==> exists j :: 0 <= j < i && IsBudget(instructions[j], code)
      {
        if IsBudget(instructions[i], code) { found := true; }
      }
    }

    /** `_prepareTx`, once it has a wallet */
    method Prepare(attempt: Attempt, units: nat, force: bool, signers: seq<string>, wallet: string)
      modifies this
      ensures instructions == Prepared(old(instructions), attempt.fee, units)
      ensures recentBlockhash == (if force then attempt.latest else attempt.cached) && feePayer == wallet
      ensures signatures == Signed(old(signatures), signers + [wallet], Signature(instructions, recentBlockhash))
    {
      var hasPrice := Find(3);
      assert hasPrice <==> HasPrice(instructions);
      if !hasPrice && attempt.fee != 0 {
        instructions := [SetPrice(attempt.fee)] + instructions;
      }
      assert instructions == WithPrice(old(instructions), attempt.fee);
      if units != 0 {
        var hasLimit := Find(2);
        assert hasLimit <==> HasLimit(instructions);
        if !hasLimit { instructions := [SetLimit(units)] + instructions; }
      }
      recentBlockhash := if force then attempt.latest else attempt.cached;
      feePayer := wallet;
      Sign(signers + [wallet]);
    }

    /** Every signer in turn */
    method Sign(signers: seq<string>)
      modifies this`signatures
      ensures signatures == Signed(old(signatures), signers, Signature(instructions, recentBlockhash))
    {
      for i := 0 to |signers|
        invariant signatures == Signed(old(signatures), signers[..i], Signature(instructions, recentBlockhash))
      {
        SignedByOneMore(old(signatures), signers, i, Signature(instructions, recentBlockhash));
        hide Signed;
        signatures := signatures[signers[i] := Signature(instructions, recentBlockhash)];
      }
      assert signers[..|signers|] == signers;
    }

    /** `send`: the messages that went out, the events it raised and how it ended */
    method Send(attempts: seq<Attempt>, options: SendOptions)
      returns (result: Result, sent: seq<Message>, events: seq<Message>)
      modifies this
      ensures |sent| <= |attempts|
      ensures match result
              case NotConnected =>
                && |sent| < |attempts| && options.wallet.None? && attempts[|sent|].current.None?
                && forall k | 0 <= k < |sent| :: attempts[k].outcome.Retryable?
              case Retrying =>
                |sent| == |attempts| && forall k | 0 <= k < |sent| :: attempts[k].outcome.Retryable?
              case Accepted(hash) =>
                && |sent| > 0 && attempts[|sent| - 1].outcome == Sent(hash)
                && forall k | 0 <= k < |sent| - 1 :: attempts[k].outcome.Retryable?
              case Rejected(error) =>
                && |sent| > 0 && attempts[|sent| - 1].outcome == Refused(error)
                && forall k | 0 <= k < |sent| - 1 :: attempts[k].outcome.Retryable?
      ensures forall k | 0 <= k < |sent| ::
                if options.wallet.Some? then sent[k].feePayer == options.wallet.value
                else attempts[k].current == Some(sent[k].feePayer)
      ensures forall k | 0 <= k < |sent| :: WalletAt(options, attempts[k]).Some?
      ensures sent == Messages(old(instructions), old(signatures), attempts, options, |sent|)
      ensures instructions == After(old(instructions), attempts[..|sent|], options.computeUnitLimit)
      ensures events == if result.Accepted? && |sent| > 0 then [sent[|sent| - 1]] else []
    {
      hide After, Prepared, Signed, MessageAt;
      sent, events := [], [];
      ghost var ixs, signed := instructions, signatures;
      PreparedForNone(ixs, options.computeUnitLimit);
      for i := 0 to |attempts|
        invariant |sent| == i && events == []
        invariant instructions == After(ixs, attempts[..i], options.computeUnitLimit)
        invariant signatures == if i == 0 then signed else map[]
        invariant forall k | 0 <= k < i :: attempts[k].outcome.Retryable? && WalletAt(options, attempts[k]).Some?
        invariant forall k | 0 <= k < i :: WalletAt(options, attempts[k]) == Some(sent[k].feePayer)
        invariant sent == Messages(ixs, signed, attempts, options, i)
      {
        var wallet := WalletAt(options, attempts[i]);
        if wallet.None? { return NotConnected, sent, events; }
        Prepare(attempts[i], options.computeUnitLimit, i > 0 || options.forceFresh, options.signers, wallet.value);
        assert attempts[..i + 1] == attempts[..i] + [attempts[i]];
        PreparedForLast(ixs, attempts[..i], attempts[i], options.computeUnitLimit);
        var message := Message(instructions, recentBlockhash, feePayer, signatures);
        MessageIs(ixs, signed, attempts, options, i, message);
        sent := sent + [message];
        match attempts[i].outcome
        case Retryable =>
          signatures := map[];
        case Sent(hash) =>
          events := [message];
          return Accepted(hash), sent, events;
        case Refused(error) =>
          return Rejected(error), sent, events;
      }
      assert attempts[..|attempts|] == attempts;
      result := Retrying;
    }
  }
}
