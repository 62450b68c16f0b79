/**
  The entities of the dashboard: equipment and user records, each an
  object with an optional `id` property plus its own display fields.
 */
module Records {
  import opened Decimal

  datatype Option<T> = None | Some(value: T)

  /** A record as the dashboard keeps it: the `id` property, which an
      object may lack, and the remaining fields. */
  datatype Record<F> = Record(id: Option<string>, fields: F)

  /** Fields of an equipment item: name, type, site and SKU. */
  datatype EquipmentFields = EquipmentFields(nombre: string, tipo: string, sede: string, sku: string)

  /** Fields of a user: name, e-mail and role. */
  datatype UserFields = UserFields(name: string, email: string, role: string)

  type Equipment = Record<EquipmentFields>
  type User = Record<UserFields>

  const EquipmentPrefix: string := "equip-"
  const UserPrefix: string := "user-"

  /** The id `prefix${n}` given to the record for number `n`. */
  function TaggedId(prefix: string, n: nat): string {
    prefix + Show(n)
  }

  /** JavaScript truthiness of an `id` property: a missing id and the
      empty string are both falsy. */
  predicate Truthy(id: Option<string>) {
    id.Some? && id.value != ""
  }

  /** Some record of `rs` carries `id`. */
  predicate HasId<F>(rs: seq<Record<F>>, id: Option<string>) {
    exists i :: 0 <= i < |rs| && rs[i].id == id
  }

  /** No two positions of `rs` carry the same id. */
  predicate UniqueIds<F>(rs: seq<Record<F>>) {
    forall i, j :: 0 <= i < |rs| && 0 <= j < |rs| && i != j ==> rs[i].id != rs[j].id
  }

  /** Every record of `rs` carries a truthy id. */
  predicate AllIdentified<F>(rs: seq<Record<F>>) {
    forall i :: 0 <= i < |rs| ==> Truthy(rs[i].id)
  }

  /** The shape every collection the dashboard builds keeps: each record
      identified, and identified uniquely. */
  predicate WellFormed<F>(rs: seq<Record<F>>) {
    AllIdentified(rs) && UniqueIds(rs)
  }

  lemma TaggedIdInjective(prefix: string, a: nat, b: nat)
    ensures TaggedId(prefix, a) == TaggedId(prefix, b) <==> a == b
  {
    PrefixedShowInjective(prefix, a, b);
  }
}
