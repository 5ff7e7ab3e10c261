/** The account store `CLIENTES` and the pre-approval lookup tool.

    `get_or_create_conta(key)` returns the account stored under `key`, and on
    a miss first creates one with a random pre-approved amount: 0 when the
    draw `random()` falls below one half, otherwise `randrange(1000, 20001, 500)`.
    `obter_pre_aprovado(id)` normalises `id`, answers INVALID when the normal
    form is too short, and otherwise answers OK with the normal form and the
    amount of its (possibly new) account.

    The random source is an argument here: a `Draw` holds the outcome of the
    coin (`random() < 0.50`) and the index `randrange` picks, and is used only
    when an account is created.
 */
module Accounts {
  import opened Identifier

  /** `ClienteConta`: the pre-approved amount available to the customer. */
  datatype Account = Account(preApproved: int)

  /** The data of the ToolResult that `obter_pre_aprovado` returns. */
  datatype LookupResult =
    | Invalid(reason: string)                // {"status": "INVALID", "motivo": ...}
    | Ok(id: string, amount: int)            // {"status": "OK", "id_cliente": ..., "valor_pre_aprovado": ...}

  const InvalidReason: string := "Identificador em formato inválido"

  /** The arguments of `randrange(1000, 20001, 500)`. */
  const RangeStart: int := 1000
  const RangeStop: int := 20001
  const RangeStep: int := 500

  /** How many values `randrange` chooses among: ceil((stop - start) / step). */
  function RangeCount(): (n: nat)
    ensures RangeStart + RangeStep * (n - 1) < RangeStop <= RangeStart + RangeStep * n
  {
    (RangeStop - RangeStart + RangeStep - 1) / RangeStep
  }

  /** One outcome of the random source at account creation. */
  datatype Draw = Draw(belowHalf: bool, index: nat)

  predicate ValidDraw(d: Draw) {
    d.index < RangeCount()
  }

  /** The amount a new account gets for draw `d`. */
  function DrawnAmount(d: Draw): (pa: int)
    requires ValidDraw(d)
    ensures AllowedAmount(pa)
    ensures pa == 0 <==> d.belowHalf
  {
    if d.belowHalf then 0 else RangeStart + RangeStep * d.index
  }

  /** The amounts a new account can get: zero, or a multiple of 500 from 1000
      to 20000. */
  predicate AllowedAmount(pa: int) {
    pa == 0 || (1000 <= pa <= 20000 && pa % 500 == 0)
  }

  /** The draw produces exactly the allowed amounts. */
  lemma DrawnAmountsAreAllowed(pa: int)
    ensures AllowedAmount(pa) <==> exists d :: ValidDraw(d) && DrawnAmount(d) == pa
  {
    if AllowedAmount(pa) {
      var d := if pa == 0 then Draw(true, 0) else Draw(false, (pa - RangeStart) / RangeStep);
      assert ValidDraw(d) && DrawnAmount(d) == pa;
    }
    if exists d :: ValidDraw(d) && DrawnAmount(d) == pa {
      var d :| ValidDraw(d) && DrawnAmount(d) == pa;
      assert d.index <= 38;
    }
  }

  /** Every account in the store holds an allowed amount. */
  ghost predicate StoreInvariant(m: map<string, Account>) {
    forall k :: k in m ==> AllowedAmount(m[k].preApproved)
  }

  /** Every entry of `m` is in `m'` with the same account. */
  ghost predicate Extends(m: map<string, Account>, m': map<string, Account>) {
    forall k :: k in m ==> k in m' && m'[k] == m[k]
  }

  // ---------------------------------------------------------------------------
  // The operations as functions of the store
  // ---------------------------------------------------------------------------

  /** `get_or_create_conta` on store `m`: the account returned and the new store. */
  function GetOrCreate(m: map<string, Account>, key: string, d: Draw): (res: (Account, map<string, Account>))
    requires ValidDraw(d)
    ensures key in res.1 && res.1[key] == res.0
    ensures key in m ==> res == (m[key], m)
    ensures key !in m ==> res.1 == m[key := res.0] && AllowedAmount(res.0.preApproved)
  {
    if key in m then (m[key], m)
    else
      var acc := Account(DrawnAmount(d));
      (acc, m[key := acc])
  }

  /** `obter_pre_aprovado` on store `m`: the tool's answer and the new store. */
  function Lookup(m: map<string, Account>, raw: Option<string>, d: Draw): (res: (LookupResult, map<string, Account>))
    requires ValidDraw(d)
    ensures res.0.Invalid? <==> !WellFormed(NormalizeId(raw))
    ensures res.0.Invalid? ==> res == (Invalid(InvalidReason), m)
    ensures res.0.Ok? ==> res.0.id == NormalizeId(raw) && res.0.id in res.1
                          && res.0.amount == res.1[res.0.id].preApproved
    ensures res.0.Ok? && res.0.id in m ==> res.0.amount == m[res.0.id].preApproved && res.1 == m
    ensures Extends(m, res.1)
    ensures res.1.Keys <= m.Keys + {NormalizeId(raw)}
  {
    var id := NormalizeId(raw);
    if |id| < MinIdLength then (Invalid(InvalidReason), m)
    else
      var (acc, m') := GetOrCreate(m, id, d);
      (Ok(id, acc.preApproved), m')
  }

  // ---------------------------------------------------------------------------
  // Properties of the store
  // ---------------------------------------------------------------------------

  /** Creation keeps every amount in the store allowed, hence non-negative. */
  lemma GetOrCreateKeepsInvariant(m: map<string, Account>, key: string, d: Draw)
    requires ValidDraw(d) && StoreInvariant(m)
    ensures StoreInvariant(GetOrCreate(m, key, d).1)
    ensures GetOrCreate(m, key, d).0.preApproved >= 0
  {
  }

  /** Only the looked-up key may be added; every other entry is untouched. */
  lemma GetOrCreateFrame(m: map<string, Account>, key: string, d: Draw, other: string)
    requires ValidDraw(d) && other != key
    ensures GetOrCreate(m, key, d).1.Keys == m.Keys + {key}
    ensures other in m ==> GetOrCreate(m, key, d).1[other] == m[other]
  {
  }

  /** After the first access the account is stable: a second access with any
      draw returns the same account and leaves the store as it is. */
  lemma GetOrCreateStable(m: map<string, Account>, key: string, d1: Draw, d2: Draw)
    requires ValidDraw(d1) && ValidDraw(d2)
    ensures var (a1, m1) := GetOrCreate(m, key, d1);
            GetOrCreate(m1, key, d2) == (a1, m1)
  {
  }

  /** Identifiers that differ only by separators are the same customer. */
  lemma LookupIgnoresSeparators(m: map<string, Account>, a: string, sep: string, b: string, d: Draw)
    requires ValidDraw(d) && AllSeparators(sep)
    ensures Lookup(m, Some(a + sep + b), d) == Lookup(m, Some(a + b), d)
  {
    NormalizeIdIgnoresInsertedSeparators(a, sep, b);
  }

  /** Two lookups of identifiers with the same normal form give the same
      answer, and the second changes nothing, whatever its draw. */
  lemma LookupRepeatable(m: map<string, Account>, raw1: Option<string>, raw2: Option<string>, d1: Draw, d2: Draw)
    requires ValidDraw(d1) && ValidDraw(d2)
    requires NormalizeId(raw1) == NormalizeId(raw2)
    ensures var (r1, m1) := Lookup(m, raw1, d1);
            Lookup(m1, raw2, d2) == (r1, m1)
  {
  }

  /** A customer's answer survives lookups of other customers: looking up A,
      then anyone, then A again gives A the same answer. */
  lemma LookupStableAcrossOthers(m: map<string, Account>, a1: Option<string>, b: Option<string>, a2: Option<string>,
                                 d1: Draw, d2: Draw, d3: Draw)
    requires ValidDraw(d1) && ValidDraw(d2) && ValidDraw(d3)
    requires NormalizeId(a1) == NormalizeId(a2)
    ensures var (r1, m1) := Lookup(m, a1, d1);
            var (_, m2) := Lookup(m1, b, d2);
            Lookup(m2, a2, d3).0 == r1
  {
  }

  /** Every answer of the tool on a store that keeps its invariant is INVALID
      or OK with an allowed amount, and the store keeps its invariant. */
  lemma LookupKeepsInvariant(m: map<string, Account>, raw: Option<string>, d: Draw)
    requires ValidDraw(d) && StoreInvariant(m)
    ensures var (r, m') := Lookup(m, raw, d);
            StoreInvariant(m') && (r.Ok? ==> AllowedAmount(r.amount))
  {
  }

  // ---------------------------------------------------------------------------
  // The store as the process-wide mutable dictionary
  // ---------------------------------------------------------------------------

  /** `CLIENTES`: the dictionary from normalised identifier to account. */
  class AccountStore {
    var clientes: map<string, Account>

    ghost predicate Valid()
      reads this
    {
      StoreInvariant(clientes)
    }

    /** The module starts with an empty dictionary. */
    constructor ()
      ensures Valid() && clientes == map[]
    {
      clientes := map[];
    }

    /** `get_or_create_conta`. */
    method GetOrCreateConta(key: string, d: Draw) returns (conta: Account)
      requires Valid() && ValidDraw(d)
      modifies this
      ensures Valid()
      ensures (conta, clientes) == GetOrCreate(old(clientes), key, d)
      ensures key in old(clientes) ==> clientes == old(clientes) && conta == old(clientes)[key]
      ensures key !in old(clientes) ==>
                clientes == old(clientes)[key := conta] && AllowedAmount(conta.preApproved)
    {
      if key in clientes {
        conta := clientes[key];
      } else {
        conta := Account(DrawnAmount(d));
        clientes := clientes[key := conta];
      }
    }

    /** `obter_pre_aprovado`. */
    method ObterPreAprovado(idCliente: Option<string>, d: Draw) returns (res: LookupResult)
      requires Valid() && ValidDraw(d)
      modifies this
      ensures Valid()
      ensures (res, clientes) == Lookup(old(clientes), idCliente, d)
      ensures res.Invalid? <==> !WellFormed(NormalizeId(idCliente))
      ensures res.Invalid? ==> clientes == old(clientes)
      ensures res.Ok? ==> res.id == NormalizeId(idCliente) && res.id in clientes
                          && res.amount == clientes[res.id].preApproved
                          && AllowedAmount(res.amount)
      ensures Extends(old(clientes), clientes)
      ensures clientes.Keys <= old(clientes).Keys + {NormalizeId(idCliente)}
    {
      ghost var before := clientes;
      var idNorm := NormalizeId(idCliente);
      if |idNorm| < MinIdLength {
        res := Invalid(InvalidReason);
      } else {
        var conta := GetOrCreateConta(idNorm, d);
        res := Ok(idNorm, conta.preApproved);
      }
      assert (res, clientes) == Lookup(before, idCliente, d);
    }
  }
}
