/**
  The simulated data load: three fixed users, and the ten equipment
  items of the initial data set, each given the positional id
  `equip-${index}`.
 */
module Seed {
  import opened Decimal
  import opened Records

  /** The initial equipment data set, in order. Two entries share the SKU
      "EQP010" and none has "EQP009": the SKU is a display field, not a key. */
  const InitialEquipmentData: seq<EquipmentFields> := [
    EquipmentFields("Laptop Lenovo ThinkPad", "Portátil", "Sede Lima", "EQP001"),
    EquipmentFields("Laptop Lenovo ThinkPad", "Portátil", "Sede Arequipa", "EQP002"),
    EquipmentFields("Laptop Dell Inspiron", "Portátil", "Sede Trujillo", "EQP003"),
    EquipmentFields("Monitor Samsung 24\"", "Monitor", "Sede Lima", "EQP004"),
    EquipmentFields("Monitor Samsung 24\"", "Monitor", "Sede Cusco", "EQP005"),
    EquipmentFields("CPU HP ProDesk 400", "PC Escritorio", "Sede Lima", "EQP006"),
    EquipmentFields("CPU HP ProDesk 400", "PC Escritorio", "Sede Piura", "EQP007"),
    EquipmentFields("Impresora HP LaserJet", "Impresora", "Sede Lima", "EQP008"),
    EquipmentFields("Impresora HP LaserJet", "Impresora", "Sede Chiclayo", "EQP010"),
    EquipmentFields("Router TP-Link Archer", "Red", "Sede Lima", "EQP010")
  ]

  /** `data.map((item, index) => ({ ...item, id: `${prefix}${index}` }))`. */
  function Enumerate<F>(data: seq<F>, prefix: string): seq<Record<F>> {
    seq(|data|, i requires 0 <= i < |data| => Record(Some(TaggedId(prefix, i)), data[i]))
  }

  /** The equipment collection after the simulated load. */
  function SeedEquipment(): seq<Equipment> {
    Enumerate(InitialEquipmentData, EquipmentPrefix)
  }

  /** The user collection after the simulated load. */
  function SeedUsers(): seq<User> {
    [
      Record(Some("user-001"), UserFields("Juan Pérez", "juan.perez@example.com", "Administrador")),
      Record(Some("user-002"), UserFields("María García", "maria.garcia@example.com", "Editor")),
      Record(Some("user-003"), UserFields("Carlos Sánchez", "carlos.sanchez@example.com", "Usuario"))
    ]
  }

  /** Enumerating with a prefix numbers the records positionally and gives
      them pairwise distinct, truthy ids, whatever the data holds. */
  lemma EnumerateWellFormed<F>(data: seq<F>, prefix: string)
    ensures |Enumerate(data, prefix)| == |data|
    ensures forall i :: 0 <= i < |data| ==>
      Enumerate(data, prefix)[i].fields == data[i] && Enumerate(data, prefix)[i].id == Some(TaggedId(prefix, i))
    ensures WellFormed(Enumerate(data, prefix))
  {
    var r := Enumerate(data, prefix);
    forall i | 0 <= i < |r|
      ensures Truthy(r[i].id)
    {
      assert |Show(i)| >= 1;
    }
    forall i, j | 0 <= i < |r| && 0 <= j < |r| && i != j
      ensures r[i].id != r[j].id
    {
      TaggedIdInjective(prefix, i, j);
    }
  }

  /** The seeded equipment: exactly ten records, the i-th carrying the
      fields of the i-th data entry and the id "equip-i"; the ids are
      distinct even though two entries share a SKU. */
  lemma SeedEquipmentShape()
    ensures |SeedEquipment()| == 10
    ensures forall i :: 0 <= i < 10 ==>
      SeedEquipment()[i].fields == InitialEquipmentData[i]
      && SeedEquipment()[i].id == Some("equip-" + Show(i))
    ensures WellFormed(SeedEquipment())
    ensures SeedEquipment()[8].fields.sku == SeedEquipment()[9].fields.sku
  {
    EnumerateWellFormed(InitialEquipmentData, EquipmentPrefix);
  }

  /** The seeded users are well formed. */
  lemma SeedUsersWellFormed()
    ensures |SeedUsers()| == 3
    ensures WellFormed(SeedUsers())
  {
  }

  /** A clock-generated equipment id `equip-${now}` collides with a seeded
      id exactly when `now` is below ten. */
  lemma FreshEquipmentIdVersusSeed(now: nat)
    ensures HasId(SeedEquipment(), Some(TaggedId(EquipmentPrefix, now))) <==> now < 10
  {
    SeedEquipmentShape();
    if now < 10 {
      assert SeedEquipment()[now].id == Some(TaggedId(EquipmentPrefix, now));
    } else {
      forall i | 0 <= i < 10
        ensures SeedEquipment()[i].id != Some(TaggedId(EquipmentPrefix, now))
      {
        TaggedIdInjective(EquipmentPrefix, i, now);
      }
    }
  }

  /** A clock-generated user id `user-${now}` never collides with a seeded
      user id, because a rendered number has no leading zero. */
  lemma FreshUserIdAvoidsSeed(now: nat)
    ensures !HasId(SeedUsers(), Some(TaggedId(UserPrefix, now)))
  {
    ShowNeverPadded(UserPrefix, now, "001");
    ShowNeverPadded(UserPrefix, now, "002");
    ShowNeverPadded(UserPrefix, now, "003");
    assert "user-001" == UserPrefix + "001";
    assert "user-002" == UserPrefix + "002";
    assert "user-003" == UserPrefix + "003";
  }
}
