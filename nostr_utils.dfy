// Nostr events as the bank reads and writes them: validation of a kind 9734
// zap request (NIP-57 Appendix D), the tags of a kind 9735 zap receipt
// (NIP-57 Appendix E), the kind 30078 balance event, and the check of a
// signed login challenge. Hashing, JSON serialisation and Schnorr signatures
// are parameters.

module NostrUtils {
  import opened Common

  /** A tag: a list of strings, its name first. */
  type Tag = seq<string>

  /** An incoming event dict; an absent key is `None` (absent tags are `[]`). */
  datatype Event = Event(pubkey: Option<string>, createdAt: Option<int>, kind: Option<int>,
                         tags: seq<Tag>, content: Option<string>, sig: Option<string>)

  /** An event the bank builds, before its id and signature are computed. */
  datatype UnsignedEvent<C> = UnsignedEvent(pubkey: string, createdAt: int, kind: int, tags: seq<Tag>, content: C)

  const ZapRequestKind := 9734
  const ZapReceiptKind := 9735
  const BalanceKind := 30078

  /** `event.get(key, default)` */
  function GetOr<T>(o: Option<T>, default: T): T
  {
    if o.Some? then o.value else default
  }

  /** A tag with at least a name and a value, named `name`. */
  predicate Named(t: Tag, name: string)
  {
    |t| >= 2 && t[0] == name
  }

  /** `[t[1] for t in tags if len(t) >= 2 and t[0] == name]` */
  function Values(tags: seq<Tag>, name: string): seq<string>
  {
    if tags == [] then []
    else (if Named(tags[0], name) then [tags[0][1]] else []) + Values(tags[1..], name)
  }

  /** The index of the first tag named `name`, if any. */
  function FirstNamed(tags: seq<Tag>, name: string): (r: Option<nat>)
    ensures r.Some? ==> r.value < |tags| && Named(tags[r.value], name)
    ensures r.Some? ==> forall j :: 0 <= j < r.value ==> !Named(tags[j], name)
    ensures r.None? ==> forall j :: 0 <= j < |tags| ==> !Named(tags[j], name)
  {
    if tags == [] then None
    else if Named(tags[0], name) then Some(0)
    else
      var rest := FirstNamed(tags[1..], name);
      if rest.None? then None else Some(rest.value + 1)
  }

  // ---------------------------------------------------------------------
  // Decimal integers (`int(s)` on a tag value)
  // ---------------------------------------------------------------------

  predicate IsDigits(s: string)
  {
    |s| > 0 && forall i :: 0 <= i < |s| ==> '0' <= s[i] <= '9'
  }

  function DigitsValue(s: string): nat
    requires IsDigits(s)
  {
    var d := (s[|s| - 1] as int) - ('0' as int);
    if |s| == 1 then d else DigitsValue(s[..|s| - 1]) * 10 + d
  }

  /** `int(s)`: an optional sign and decimal digits; anything else raises. */
  function ParseInt(s: string): Option<int>
  {
    if IsDigits(s) then Some(DigitsValue(s))
    else if |s| > 1 && s[0] == '-' && IsDigits(s[1..]) then Some(-(DigitsValue(s[1..]) as int))
    else if |s| > 1 && s[0] == '+' && IsDigits(s[1..]) then Some(DigitsValue(s[1..]))
    else None
  }

  /** The decimal spelling of a natural number, as `str(n)` writes it. */
  function Decimal(n: nat): (r: string)
    ensures IsDigits(r)
  {
    var d := ((n % 10) + '0' as int) as char;
    if n < 10 then [d] else Decimal(n / 10) + [d]
  }

  lemma {:induction false} DecimalValue(n: nat)
    ensures DigitsValue(Decimal(n)) == n
  {
    if n >= 10 {
      DecimalValue(n / 10);
      var s := Decimal(n);
      assert s[..|s| - 1] == Decimal(n / 10);
    }
  }

  /** `int(str(n)) == n` for every integer the bank writes into a tag. */
  lemma ParseDecimal(n: int)
    ensures n >= 0 ==> ParseInt(Decimal(n)) == Some(n)
    ensures n < 0 ==> ParseInt("-" + Decimal(-n)) == Some(n)
  {
    if n >= 0 {
      DecimalValue(n);
    } else {
      DecimalValue(-n);
      var s := "-" + Decimal(-n);
      assert s[1..] == Decimal(-n);
      assert !IsDigits(s) by { assert s[0] == '-'; }
    }
  }

  // ---------------------------------------------------------------------
  // Kind 9734: zap request
  // ---------------------------------------------------------------------

  datatype ZapRequest = ZapRequest(pubkey: Option<string>, amountMsats: int, relays: seq<string>,
                                   content: string, tags: seq<Tag>, createdAt: Option<int>)

  /** `validate_zap_request_9734`: `Ok(None)` for an invalid request, and
      `Raised` when the first amount tag is not an integer. */
  function ValidateZapRequest(e: Event, recipient: string): Result<Option<ZapRequest>>
  {
    if e.kind != Some(ZapRequestKind) || e.tags == [] then Ok(None)
    else
      var p := Values(e.tags, "p");
      if |p| != 1 || p[0] != recipient then Ok(None)
      else
        var amounts := Values(e.tags, "amount");
        var amount := if amounts == [] then Some(0) else ParseInt(amounts[0]);
        if amount.None? then Raised("ValueError")
        else if amount.value <= 0 then Ok(None)
        else
          var relay := FirstNamed(e.tags, "relays");
          var relays := if relay.Some? then e.tags[relay.value][1..] else [];
          Ok(Some(ZapRequest(e.pubkey, amount.value, relays, GetOr(e.content, ""), e.tags, e.createdAt)))
  }

  /** No value for a name exactly when no tag has that name. */
  lemma {:induction false} NoValues(tags: seq<Tag>, name: string)
    ensures Values(tags, name) == [] <==> forall j :: 0 <= j < |tags| ==> !Named(tags[j], name)
  {
    if tags != [] {
      NoValues(tags[1..], name);
      if forall j :: 0 <= j < |tags| ==> !Named(tags[j], name) {
        forall j | 0 <= j < |tags| - 1 ensures !Named(tags[1..][j], name) {
          assert tags[1..][j] == tags[j + 1];
        }
      }
      if Values(tags, name) == [] {
        forall j | 0 <= j < |tags| ensures !Named(tags[j], name) {
          if j > 0 {
            assert tags[j] == tags[1..][j - 1];
          }
        }
      }
    }
  }

  /** A name carried by tag `i` and by no other tag has that tag's value as
      its only value. */
  lemma {:induction false} SoleValueAt(tags: seq<Tag>, name: string, i: nat)
    requires i < |tags| && Named(tags[i], name)
    requires forall j :: 0 <= j < |tags| && j != i ==> !Named(tags[j], name)
    ensures Values(tags, name) == [tags[i][1]]
  {
    var rest := tags[1..];
    if i == 0 {
      forall j | 0 <= j < |rest| ensures !Named(rest[j], name) {
        assert rest[j] == tags[j + 1];
      }
      NoValues(rest, name);
    } else {
      assert rest[i - 1] == tags[i];
      forall j | 0 <= j < |rest| && j != i - 1 ensures !Named(rest[j], name) {
        assert rest[j] == tags[j + 1];
      }
      SoleValueAt(rest, name, i - 1);
    }
  }

  /** A single value comes from the one tag carrying the name. */
  lemma {:induction false} SoleValueIndex(tags: seq<Tag>, name: string) returns (i: nat)
    requires |Values(tags, name)| == 1
    ensures i < |tags| && Named(tags[i], name) && tags[i][1] == Values(tags, name)[0]
    ensures forall j :: 0 <= j < |tags| && j != i ==> !Named(tags[j], name)
  {
    var rest := tags[1..];
    if Named(tags[0], name) {
      NoValues(rest, name);
      i := 0;
      forall j | 0 <= j < |tags| && j != 0 ensures !Named(tags[j], name) {
        assert tags[j] == rest[j - 1];
      }
    } else {
      var k := SoleValueIndex(rest, name);
      i := k + 1;
      assert tags[i] == rest[k];
      forall j | 0 <= j < |tags| && j != i ensures !Named(tags[j], name) {
        if j > 0 {
          assert tags[j] == rest[j - 1];
        }
      }
    }
  }

  /** The list of values of a name is the single value `v` exactly when one
      tag, and only one, carries that name, and its value is `v`. */
  lemma SoleValue(tags: seq<Tag>, name: string, v: string)
    ensures Values(tags, name) == [v] <==>
      exists i :: 0 <= i < |tags| && Named(tags[i], name) && tags[i][1] == v &&
        forall j :: 0 <= j < |tags| && j != i ==> !Named(tags[j], name)
  {
    if Values(tags, name) == [v] {
      var i := SoleValueIndex(tags, name);
    }
    if exists i :: 0 <= i < |tags| && Named(tags[i], name) && tags[i][1] == v &&
        forall j :: 0 <= j < |tags| && j != i ==> !Named(tags[j], name) {
      var i :| 0 <= i < |tags| && Named(tags[i], name) && tags[i][1] == v &&
        forall j :: 0 <= j < |tags| && j != i ==> !Named(tags[j], name);
      SoleValueAt(tags, name, i);
    }
  }

  /** The first value of a name comes from the first tag with that name. */
  lemma {:induction false} FirstValue(tags: seq<Tag>, name: string)
    ensures Values(tags, name) != [] <==> FirstNamed(tags, name).Some?
    ensures Values(tags, name) != [] ==> Values(tags, name)[0] == tags[FirstNamed(tags, name).value][1]
  {
    if tags != [] && !Named(tags[0], name) {
      FirstValue(tags[1..], name);
    }
  }

  /** A zap request is accepted exactly when it is of kind 9734, one tag
      and only one names the recipient as `p`, and the first `amount` tag
      holds a positive integer; the amount is that integer and the relays
      are the rest of the first `relays` tag. */
  lemma ZapRequestAccepted(e: Event, recipient: string, z: ZapRequest)
    ensures ValidateZapRequest(e, recipient) == Ok(Some(z)) <==>
      && e.kind == Some(ZapRequestKind)
      && (exists i :: 0 <= i < |e.tags| && Named(e.tags[i], "p") && e.tags[i][1] == recipient &&
            forall j :: 0 <= j < |e.tags| && j != i ==> !Named(e.tags[j], "p"))
      && var a := FirstNamed(e.tags, "amount");
      && a.Some? && ParseInt(e.tags[a.value][1]).Some?
      && var relay := FirstNamed(e.tags, "relays");
      && z == ZapRequest(e.pubkey, ParseInt(e.tags[a.value][1]).value,
                         if relay.Some? then e.tags[relay.value][1..] else [],
                         GetOr(e.content, ""), e.tags, e.createdAt)
      && z.amountMsats > 0
  {
    SoleValue(e.tags, "p", recipient);
    FirstValue(e.tags, "amount");
  }

  /** A request with no `amount` tag is refused, never raised. */
  lemma NoAmountRefused(e: Event, recipient: string)
    requires FirstNamed(e.tags, "amount").None?
    ensures ValidateZapRequest(e, recipient) == Ok(None)
  {
    FirstValue(e.tags, "amount");
  }

  // ---------------------------------------------------------------------
  // Kind 9735: zap receipt
  // ---------------------------------------------------------------------

  /** A request tag the receipt copies: `p`, `e` or `a` with a value. */
  predicate Copied(t: Tag)
    requires |t| > 0
  {
    (t[0] == "p" || t[0] == "e" || t[0] == "a") && |t| >= 2
  }

  /** The request tags copied into the receipt, in order; reading the name of
      an empty tag raises `IndexError`. */
  function ReceiptCopies(tags: seq<Tag>): Result<seq<Tag>>
  {
    if tags == [] then Ok([])
    else
      var init := ReceiptCopies(tags[..|tags| - 1]);
      var t := tags[|tags| - 1];
      if init.Raised? then init
      else if |t| == 0 then Raised("IndexError")
      else Ok(init.value + if Copied(t) then [t] else [])
  }

  /** The copy raises exactly when some request tag is empty; otherwise the
      copies are the request's `p`/`e`/`a` tags that have a value. */
  lemma {:induction false} ReceiptCopiesChosen(tags: seq<Tag>)
    ensures ReceiptCopies(tags).Raised? <==> exists i :: 0 <= i < |tags| && tags[i] == []
    ensures ReceiptCopies(tags).Raised? ==> ReceiptCopies(tags).error == "IndexError"
    ensures ReceiptCopies(tags).Ok? ==>
      && |ReceiptCopies(tags).value| <= |tags|
      && forall t :: t in ReceiptCopies(tags).value <==> t in tags && Copied(t)
  {
    if tags != [] {
      var init := tags[..|tags| - 1];
      ReceiptCopiesChosen(init);
      assert tags == init + [tags[|tags| - 1]];
      if exists i :: 0 <= i < |init| && init[i] == [] {
        var i :| 0 <= i < |init| && init[i] == [];
        assert tags[i] == [];
      }
    }
  }

  /** The receipt's tags: the copied tags, then `P` (the zap sender),
      `bolt11`, `description` (the serialised request) and `preimage`. */
  function ReceiptTags(request: Event, bolt11: string, preimage: string, description: string): Result<seq<Tag>>
  {
    var copies := ReceiptCopies(request.tags);
    if copies.Raised? then Raised(copies.error)
    else Ok(copies.value + [["P", GetOr(request.pubkey, "")], ["bolt11", bolt11], ["description", description], ["preimage", preimage]])
  }

  /** `create_zap_receipt_9735`, up to signing: the unsigned kind 9735 event
      the bank publishes for a paid zap request. */
  method CreateZapReceipt(request: Event, bolt11: string, preimage: string, serialize: Event -> string,
                          bankPubkey: string, now: int)
    returns (r: Result<UnsignedEvent<string>>)
    ensures var tags := ReceiptTags(request, bolt11, preimage, serialize(request));
      && (tags.Raised? ==> r == Raised(tags.error))
      && (tags.Ok? ==> r == Ok(UnsignedEvent(bankPubkey, now, ZapReceiptKind, tags.value, "")))
  {
    var tags: seq<Tag> := [];
    var i := 0;
    while i < |request.tags|
      invariant 0 <= i <= |request.tags|
      invariant ReceiptCopies(request.tags[..i]) == Ok(tags)
    {
      var t := request.tags[i];
      assert request.tags[..i + 1][..i] == request.tags[..i];
      if |t| == 0 {
        ReceiptCopiesAbort(request.tags, i);
        return Raised("IndexError");
      }
      assert ReceiptCopies(request.tags[..i + 1]) == Ok(tags + if Copied(t) then [t] else []);
      if Copied(t) {
        tags := tags + [t];
      } else {
        assert tags + [] == tags;
      }
      i := i + 1;
    }
    assert request.tags[..i] == request.tags;
    ghost var copies := tags;
    tags := tags + [["P", GetOr(request.pubkey, "")]];
    tags := tags + [["bolt11", bolt11]];
    tags := tags + [["description", serialize(request)]];
    tags := tags + [["preimage", preimage]];
    assert tags == copies + [["P", GetOr(request.pubkey, "")], ["bolt11", bolt11], ["description", serialize(request)], ["preimage", preimage]];
    r := Ok(UnsignedEvent(bankPubkey, now, ZapReceiptKind, tags, ""));
  }

  /** An empty tag at `i` makes the whole copy raise, whatever follows it. */
  lemma ReceiptCopiesAbort(tags: seq<Tag>, i: int)
    requires 0 <= i < |tags| && tags[i] == []
    ensures ReceiptCopies(tags) == Raised("IndexError")
  {
    ReceiptCopiesChosen(tags);
  }

  // ---------------------------------------------------------------------
  // Kind 30078: balance event
  // ---------------------------------------------------------------------

  /** The JSON content of a balance event. */
  datatype BalanceContent<T> = BalanceContent(balanceMsats: int, updatedAt: int, recentTransactions: seq<T>,
                                              savingsMsats: Option<int>, savingsApy: Option<real>)

  /** The `d` tag value that makes the event replaceable per user. */
  function BalanceDTag(pubkey: string): string
  {
    "bank/balance/" + pubkey
  }

  /** `create_balance_event_30078`, up to signing. */
  function BalanceEvent<T>(pubkey: string, balanceMsats: int, summary: seq<T>, bankPubkey: string,
                           savingsMsats: int, savingsApy: real, now: int): (r: UnsignedEvent<BalanceContent<T>>)
    ensures r.kind == BalanceKind && r.pubkey == bankPubkey && r.createdAt == now
    ensures r.tags == [["d", BalanceDTag(pubkey)]]
    ensures r.content.balanceMsats == balanceMsats
    ensures |r.content.recentTransactions| == Min(|summary|, 10)
    ensures summary == summary[..|summary| - |r.content.recentTransactions|] + r.content.recentTransactions
    ensures r.content.savingsMsats.Some? <==> savingsMsats != 0 || savingsApy != 0.0
    ensures r.content.savingsMsats.Some? ==> r.content.savingsMsats.value == savingsMsats
    ensures r.content.savingsApy.Some? <==> savingsApy != 0.0
    ensures r.content.savingsApy.Some? ==> r.content.savingsApy.value == savingsApy
  {
    var recent := if |summary| <= 10 then summary else summary[|summary| - 10..];
    var withSavings := savingsMsats != 0 || savingsApy != 0.0;
    var content := BalanceContent(balanceMsats, now, recent,
                                  if withSavings then Some(savingsMsats) else None,
                                  if withSavings && savingsApy != 0.0 then Some(savingsApy) else None);
    UnsignedEvent(bankPubkey, now, BalanceKind, [["d", BalanceDTag(pubkey)]], content)
  }

  /** Two balance events replace each other exactly when they are about the
      same user: the `d` tag determines the pubkey. */
  lemma BalanceDTagInjective(p: string, q: string)
    ensures BalanceDTag(p) == BalanceDTag(q) <==> p == q
  {
    if BalanceDTag(p) == BalanceDTag(q) {
      var n := |"bank/balance/"|;
      assert p == BalanceDTag(p)[n..];
      assert q == BalanceDTag(q)[n..];
    }
  }

  // ---------------------------------------------------------------------
  // Signed login challenge
  // ---------------------------------------------------------------------

  /** `verify_signed_challenge`; `None` stands for a missing or empty event,
      and `signatureValid` for `verify_event_signature`. */
  function VerifySignedChallenge(signed: Option<Event>, challenge: string, expectedPubkey: string,
                                 signatureValid: Event -> bool): bool
  {
    if signed.None? || challenge == "" || expectedPubkey == "" then false
    else if signed.value.pubkey != Some(expectedPubkey) then false
    else if signed.value.content != Some(challenge) then false
    else signatureValid(signed.value)
  }

  /** A response is accepted exactly when it is a validly signed event by
      the expected, non-empty pubkey whose content is the non-empty
      challenge; so no response is accepted for two different pubkeys or for
      two different challenges. */
  lemma ChallengeAccepted(signed: Option<Event>, challenge: string, expectedPubkey: string, signatureValid: Event -> bool)
    ensures VerifySignedChallenge(signed, challenge, expectedPubkey, signatureValid) <==>
      && signed.Some? && challenge != "" && expectedPubkey != ""
      && signed.value.pubkey == Some(expectedPubkey)
      && signed.value.content == Some(challenge)
      && signatureValid(signed.value)
    ensures forall c, p ::
      (VerifySignedChallenge(signed, challenge, expectedPubkey, signatureValid) &&
       VerifySignedChallenge(signed, c, p, signatureValid)) ==> c == challenge && p == expectedPubkey
  {
  }
}
