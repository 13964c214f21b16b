/** The mandate ledger: signed, attenuating delegations with budgets and cart replay protection. */
module Mandates {
  import opened Common
  import opened Contracts

  type Key = Bytes

  datatype Mandate = Mandate(
    mandateId: Option<Uuid>,
    issuer: Address,
    delegate: string,
    audience: string,
    chainIds: set<nat>,
    assets: set<Asset>,
    recipients: set<Address>,
    maximum: nat,
    expiresAt: int,
    nonce: string,
    parent: Option<Uuid>,
    signature: Bytes)

  datatype Cart = Cart(
    cartId: Option<Uuid>,
    merchant: Address,
    mandateId: Uuid,
    intentHash: Digest,
    proposalHash: Digest,
    chainId: nat,
    asset: Asset,
    amount: nat,
    expiresAt: int,
    nonce: string,
    signature: Bytes)

  /** Keys, signatures, hashes and the address a text names once lower-cased; nothing is assumed of them. */
  datatype Crypto = Crypto(
    addressOf: Key -> Address,
    named: string -> Option<Address>,
    intentSigned: (Key, Mandate) -> bool,
    cartSigned: (Key, Cart) -> bool,
    intentHash: Mandate -> Digest,
    cartHash: Cart -> Digest,
    proposalHash: Proposal -> Digest)

  datatype MandateError =
    | IdRequired | IssuerMismatch | BadIntentSignature | Expired | IntentReplay
    | UnknownMandate | Revoked | NotAttenuated | OnlyIssuerRevokes | RecursionLimit
    | CartExpired | MerchantMismatch | BadCartSignature | CartReplay | OtherIntent | OtherProposal
    | OtherMandate | AudienceMismatch | DelegateMismatch | ChainMismatch | AssetMismatch
    | TransfersOnly | RecipientMismatch | AmountMismatch | BudgetExceeded

  datatype Ledger = Ledger(
    mandates: map<Uuid, Mandate>,
    spent: map<Uuid, nat>,
    revoked: set<Uuid>,
    intentNonces: set<(Address, string)>,
    cartHashes: set<Digest>,
    cartNonces: set<(Address, string)>)

  const EMPTY: Ledger := Ledger(map[], map[], {}, {}, {}, {})

  /** The clock as one call reads it: once in its own checks, and once in every level of the walk. */
  datatype Times = Times(now: int, walk: nat -> int)

  function Spent(l: Ledger, id: Uuid): nat {
    if id in l.spent then l.spent[id] else 0
  }

  /** The walk to the root with room for `depth` calls on the interpreter's stack. */
  function Active(l: Ledger, id: Uuid, walk: nat -> int, depth: nat): (r: Result<Mandate, MandateError>)
    decreases depth
  {
    if depth == 0 then Err(RecursionLimit)
    else if id !in l.mandates then Err(UnknownMandate)
    else if id in l.revoked then Err(Revoked)
    else
      var m := l.mandates[id];
      if m.expiresAt <= walk(depth) then Err(Expired)
      else if m.parent.None? then Ok(m)
      else
        var up := Active(l, m.parent.value, walk, depth - 1);
        if up.Err? then up else Ok(m)
  }

  /** Every permission of the child lies within the other mandate's. */
  predicate Within(child: Mandate, m: Mandate) {
    && child.audience == m.audience
    && child.chainIds <= m.chainIds && child.assets <= m.assets && child.recipients <= m.recipients
    && child.maximum <= m.maximum && child.expiresAt <= m.expiresAt
  }

  predicate Attenuates(crypto: Crypto, parent: Mandate, spent: nat, child: Mandate) {
    && crypto.named(parent.delegate) == Some(child.issuer)
    && child.audience == parent.audience
    && child.chainIds <= parent.chainIds && child.assets <= parent.assets && child.recipients <= parent.recipients
    && child.maximum <= parent.maximum - spent
    && child.expiresAt <= parent.expiresAt
  }

  /** The payment fits the mandate's scope. */
  predicate InScope(p: Proposal, cart: Cart, m: Mandate) {
    && p.chainId in m.chainIds && p.asset in m.assets
    && p.intent.TransferIntent? && p.intent.recipient in m.recipients && p.intent.recipient == cart.merchant
    && p.amount <= m.maximum && cart.amount == p.amount
  }

  /** The first failing check of a registration. */
  function RegisterError(crypto: Crypto, l: Ledger, m: Mandate, key: Key, t: Times, depth: nat): Option<MandateError> {
    if m.mandateId.None? then Some(IdRequired)
    else if crypto.addressOf(key) != m.issuer then Some(IssuerMismatch)
    else if !crypto.intentSigned(key, m) then Some(BadIntentSignature)
    else if m.expiresAt <= t.now then Some(Expired)
    else if (m.issuer, m.nonce) in l.intentNonces then Some(IntentReplay)
    else if m.parent.None? then None
    else
      var parent := Active(l, m.parent.value, t.walk, depth);
      if parent.Err? then Some(parent.error)
      else if !Attenuates(crypto, parent.value, Spent(l, m.parent.value), m) then Some(NotAttenuated)
      else None
  }

  function Registered(l: Ledger, m: Mandate): Ledger
    requires m.mandateId.Some?
  {
    l.(mandates := l.mandates[m.mandateId.value := m], spent := l.spent[m.mandateId.value := 0],
       intentNonces := l.intentNonces + {(m.issuer, m.nonce)})
  }

  function RevokeError(crypto: Crypto, l: Ledger, id: Uuid, actor: string): Option<MandateError> {
    if id !in l.mandates then Some(UnknownMandate)
    else if crypto.named(actor) != Some(l.mandates[id].issuer) then Some(OnlyIssuerRevokes)
    else None
  }

  /** The checks of a cart against the active mandate it names. */
  function CartError(crypto: Crypto, l: Ledger, m: Mandate, p: Proposal, cart: Cart, key: Key, audience: string, now: int)
    : Option<MandateError>
  {
    if cart.expiresAt <= now then Some(CartExpired)
    else if crypto.addressOf(key) != cart.merchant then Some(MerchantMismatch)
    else if !crypto.cartSigned(key, cart) then Some(BadCartSignature)
    else if crypto.cartHash(cart) in l.cartHashes || (cart.merchant, cart.nonce) in l.cartNonces then Some(CartReplay)
    else if cart.intentHash != crypto.intentHash(m) then Some(OtherIntent)
    else if cart.proposalHash != crypto.proposalHash(p) then Some(OtherProposal)
    else if p.mandateId.Some? && p.mandateId != m.mandateId then Some(OtherMandate)
    else if audience != m.audience then Some(AudienceMismatch)
    else if p.principalId != m.delegate then Some(DelegateMismatch)
    else if p.chainId !in m.chainIds || cart.chainId != p.chainId then Some(ChainMismatch)
    else if p.asset !in m.assets || cart.asset != p.asset then Some(AssetMismatch)
    else if !p.intent.TransferIntent? then Some(TransfersOnly)
    else if p.intent.recipient != cart.merchant || p.intent.recipient !in m.recipients then Some(RecipientMismatch)
    else if cart.amount != p.amount then Some(AmountMismatch)
    else if Spent(l, cart.mandateId) + p.amount > m.maximum then Some(BudgetExceeded)
    else None
  }

  function ConsumeError(crypto: Crypto, l: Ledger, p: Proposal, cart: Cart, key: Key, audience: string, t: Times, depth: nat)
    : Option<MandateError>
  {
    var m := Active(l, cart.mandateId, t.walk, depth);
    if m.Err? then Some(m.error) else CartError(crypto, l, m.value, p, cart, key, audience, t.now)
  }

  function Charged(crypto: Crypto, l: Ledger, p: Proposal, cart: Cart): Ledger {
    l.(spent := l.spent[cart.mandateId := Spent(l, cart.mandateId) + p.amount],
       cartHashes := l.cartHashes + {crypto.cartHash(cart)},
       cartNonces := l.cartNonces + {(cart.merchant, cart.nonce)})
  }

  /** Each dictionary key is the mandate's own id and has a spent entry. */
  ghost predicate Keyed(l: Ledger) {
    forall id | id in l.mandates :: l.mandates[id].mandateId == Some(id) && id in l.spent
  }

  // ---------- what acceptance means ----------

  /** Signed by its issuer, unexpired, not seen before, and, under a parent, issued by the parent's delegate with an
      active parent and permissions and a maximum within what is left of the parent's. */
  predicate MayRegister(crypto: Crypto, l: Ledger, m: Mandate, key: Key, t: Times, depth: nat) {
    && m.mandateId.Some? && crypto.addressOf(key) == m.issuer && crypto.intentSigned(key, m)
    && t.now < m.expiresAt && (m.issuer, m.nonce) !in l.intentNonces
    && (m.parent.Some? ==>
          && m.parent.value in l.mandates && Active(l, m.parent.value, t.walk, depth).Ok?
          && var parent := l.mandates[m.parent.value];
             && crypto.named(parent.delegate) == Some(m.issuer) && m.audience == parent.audience
             && m.chainIds <= parent.chainIds && m.assets <= parent.assets && m.recipients <= parent.recipients
             && Spent(l, m.parent.value) + m.maximum <= parent.maximum && m.expiresAt <= parent.expiresAt)
  }

  /** The cart is signed by its merchant, unexpired and unspent, made for this mandate, proposal and audience, and the
      proposal is a transfer by the delegate to the merchant, in scope and within what is left of the maximum. */
  predicate MayPay(crypto: Crypto, l: Ledger, p: Proposal, cart: Cart, key: Key, audience: string, t: Times, depth: nat) {
    && cart.mandateId in l.mandates && Active(l, cart.mandateId, t.walk, depth).Ok?
    && t.now < cart.expiresAt && crypto.addressOf(key) == cart.merchant && crypto.cartSigned(key, cart)
    && crypto.cartHash(cart) !in l.cartHashes && (cart.merchant, cart.nonce) !in l.cartNonces
    && cart.proposalHash == crypto.proposalHash(p)
    && cart.chainId == p.chainId && cart.asset == p.asset && cart.amount == p.amount
    && var m := l.mandates[cart.mandateId];
       && cart.intentHash == crypto.intentHash(m) && (p.mandateId.Some? ==> p.mandateId == m.mandateId)
       && audience == m.audience && p.principalId == m.delegate
       && p.chainId in m.chainIds && p.asset in m.assets
       && p.intent.TransferIntent? && p.intent.recipient == cart.merchant && cart.merchant in m.recipients
       && Spent(l, cart.mandateId) + p.amount <= m.maximum
  }

  lemma {:induction false} RegistersExactly(crypto: Crypto, l: Ledger, m: Mandate, key: Key, t: Times, depth: nat)
    ensures RegisterError(crypto, l, m, key, t, depth).None? <==> MayRegister(crypto, l, m, key, t, depth)
  {}

  lemma {:induction false} PaysExactly(crypto: Crypto, l: Ledger, p: Proposal, cart: Cart, key: Key, audience: string,
                                       t: Times, depth: nat)
    ensures ConsumeError(crypto, l, p, cart, key, audience, t, depth).None? <==>
            MayPay(crypto, l, p, cart, key, audience, t, depth)
  {}

  class MandateLedger {
    const crypto: Crypto
    const depth: nat
    var mandates: map<Uuid, Mandate>
    var spent: map<Uuid, nat>
    var revoked: set<Uuid>
    var intentNonces: set<(Address, string)>
    var usedCartHashes: set<Digest>
    var usedCartNonces: set<(Address, string)>

    ghost function View(): Ledger
      reads this
    {
      Ledger(mandates, spent, revoked, intentNonces, usedCartHashes, usedCartNonces)
    }

    constructor (crypto: Crypto, depth: nat)
      ensures View() == EMPTY && Keyed(View()) && this.crypto == crypto && this.depth == depth
    {
      this.crypto, this.depth := crypto, depth;
      mandates, spent, revoked := map[], map[], {};
      intentNonces, usedCartHashes, usedCartNonces := {}, {}, {};
    }

    method ActiveMandate(id: Uuid, walk: nat -> int, depth: nat) returns (r: Result<Mandate, MandateError>)
      ensures r == Active(View(), id, walk, depth)
      decreases depth
    {
      if depth == 0 {
        return Err(RecursionLimit);
      }
      if id !in mandates {
        return Err(UnknownMandate);
      }
      var m := mandates[id];
      if id in revoked {
        return Err(Revoked);
      }
      if m.expiresAt <= walk(depth) {
        return Err(Expired);
      }
      if m.parent.Some? {
        var up := ActiveMandate(m.parent.value, walk, depth - 1);
        if up.Err? {
          return up;
        }
      }
      return Ok(m);
    }

    method RegisterMandate(m: Mandate, key: Key, t: Times) returns (error: Option<MandateError>)
      requires Keyed(View())
      modifies this
      ensures Keyed(View())
      ensures error == RegisterError(crypto, old(View()), m, key, t, depth)
      ensures View() == if error.Some? then old(View()) else Registered(old(View()), m)
      ensures error.None? <==> MayRegister(crypto, old(View()), m, key, t, depth)
      ensures error.None? ==>
                && mandates == old(mandates)[m.mandateId.value := m] && spent == old(spent)[m.mandateId.value := 0]
                && intentNonces == old(intentNonces) + {(m.issuer, m.nonce)} && revoked == old(revoked)
                && usedCartHashes == old(usedCartHashes) && usedCartNonces == old(usedCartNonces)
    {
      RegistersExactly(crypto, View(), m, key, t, depth);
      hide MayRegister;
      if m.mandateId.None? {
        return Some(IdRequired);
      }
      if crypto.addressOf(key) != m.issuer {
        return Some(IssuerMismatch);
      }
      if !crypto.intentSigned(key, m) {
        return Some(BadIntentSignature);
      }
      if m.expiresAt <= t.now {
        return Some(Expired);
      }
      var nonceKey := (m.issuer, m.nonce);
      if nonceKey in intentNonces {
        return Some(IntentReplay);
      }
      if m.parent.Some? {
        var parent := ActiveMandate(m.parent.value, t.walk, depth);
        if parent.Err? {
          return Some(parent.error);
        }
        assert parent.value.mandateId == m.parent;
        if !Attenuates(crypto, parent.value, spent[parent.value.mandateId.value], m) {
          return Some(NotAttenuated);
        }
      }
      mandates := mandates[m.mandateId.value := m];
      spent := spent[m.mandateId.value := 0];
      intentNonces := intentNonces + {nonceKey};
      return None;
    }

    method Revoke(id: Uuid, actor: string) returns (error: Option<MandateError>)
      requires Keyed(View())
      modifies this
      ensures Keyed(View())
      ensures error == RevokeError(crypto, old(View()), id, actor)
      ensures View() == if error.Some? then old(View()) else old(View()).(revoked := old(revoked) + {id})
      ensures error.None? <==> id in old(mandates) && crypto.named(actor) == Some(old(mandates[id].issuer))
    {
      if id !in mandates {
        return Some(UnknownMandate);
      }
      if crypto.named(actor) != Some(mandates[id].issuer) {
        return Some(OnlyIssuerRevokes);
      }
      revoked := revoked + {id};
      return None;
    }

    method ConsumeCart(p: Proposal, cart: Cart, key: Key, audience: string, t: Times) returns (error: Option<MandateError>)
      requires Keyed(View())
      modifies this
      ensures Keyed(View())
      ensures error == ConsumeError(crypto, old(View()), p, cart, key, audience, t, depth)
      ensures View() == if error.Some? then old(View()) else Charged(crypto, old(View()), p, cart)
      ensures error.None? <==> MayPay(crypto, old(View()), p, cart, key, audience, t, depth)
      ensures error.None? ==>
                && cart.mandateId in old(spent)
                && spent == old(spent)[cart.mandateId := old(spent[cart.mandateId]) + p.amount]
                && usedCartHashes == old(usedCartHashes) + {crypto.cartHash(cart)}
                && usedCartNonces == old(usedCartNonces) + {(cart.merchant, cart.nonce)}
                && mandates == old(mandates) && revoked == old(revoked) && intentNonces == old(intentNonces)
    {
      PaysExactly(crypto, View(), p, cart, key, audience, t, depth);
      hide MayPay, CartError;
      var active := ActiveMandate(cart.mandateId, t.walk, depth);
      if active.Err? {
        return Some(active.error);
      }
      error := CheckCart(active.value, p, cart, key, audience, t.now);
      if error.Some? {
        return;
      }
      var id := active.value.mandateId.value;
      spent := spent[id := spent[id] + p.amount];
      usedCartHashes := usedCartHashes + {crypto.cartHash(cart)};
      usedCartNonces := usedCartNonces + {(cart.merchant, cart.nonce)};
    }

    method CheckCart(m: Mandate, p: Proposal, cart: Cart, key: Key, audience: string, now: int)
      returns (error: Option<MandateError>)
      requires Keyed(View()) && cart.mandateId in mandates && m == mandates[cart.mandateId]
      ensures error == CartError(crypto, View(), m, p, cart, key, audience, now)
      ensures error.None? ==>
                && InScope(p, cart, m) && Spent(View(), cart.mandateId) + p.amount <= m.maximum
                && crypto.cartHash(cart) !in usedCartHashes && (cart.merchant, cart.nonce) !in usedCartNonces
                && crypto.addressOf(key) == cart.merchant && crypto.cartSigned(key, cart)
    {
      if cart.expiresAt <= now {
        return Some(CartExpired);
      }
      if crypto.addressOf(key) != cart.merchant {
        return Some(MerchantMismatch);
      }
      if !crypto.cartSigned(key, cart) {
        return Some(BadCartSignature);
      }
      if crypto.cartHash(cart) in usedCartHashes || (cart.merchant, cart.nonce) in usedCartNonces {
        return Some(CartReplay);
      }
      if cart.intentHash != crypto.intentHash(m) {
        return Some(OtherIntent);
      }
      if cart.proposalHash != crypto.proposalHash(p) {
        return Some(OtherProposal);
      }
      if p.mandateId.Some? && p.mandateId != m.mandateId {
        return Some(OtherMandate);
      }
      if audience != m.audience {
        return Some(AudienceMismatch);
      }
      if p.principalId != m.delegate {
        return Some(DelegateMismatch);
      }
      if p.chainId !in m.chainIds || cart.chainId != p.chainId {
        return Some(ChainMismatch);
      }
      if p.asset !in m.assets || cart.asset != p.asset {
        return Some(AssetMismatch);
      }
      if !p.intent.TransferIntent? {
        return Some(TransfersOnly);
      }
      if p.intent.recipient != cart.merchant || p.intent.recipient !in m.recipients {
        return Some(RecipientMismatch);
      }
      if cart.amount != p.amount {
        return Some(AmountMismatch);
      }
      if spent[m.mandateId.value] + p.amount > m.maximum {
        return Some(BudgetExceeded);
      }
      return None;
    }
  }
}
