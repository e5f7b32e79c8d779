/** The configuration registry an algorithm reads its parameters from,
    reduced to the lookups with a default value that the modelled code uses. */
module Registry {

  datatype Registry = Registry(doubles: map<string, real>, ints: map<string, int>, bools: map<string, bool>)

  const EmptyRegistry := Registry(map[], map[], map[])

  /** `GetDoubleDef(key, def)`: the configured value, or the default when the key is absent. */
  function GetDoubleDef(reg: Registry, key: string, def: real): (r: real)
    ensures key in reg.doubles ==> r == reg.doubles[key]
    ensures key !in reg.doubles ==> r == def
  {
    if key in reg.doubles then reg.doubles[key] else def
  }

  function GetIntDef(reg: Registry, key: string, def: int): (r: int)
    ensures key in reg.ints ==> r == reg.ints[key]
    ensures key !in reg.ints ==> r == def
  {
    if key in reg.ints then reg.ints[key] else def
  }

  function GetBoolDef(reg: Registry, key: string, def: bool): (r: bool)
    ensures key in reg.bools ==> r == reg.bools[key]
    ensures key !in reg.bools ==> r == def
  {
    if key in reg.bools then reg.bools[key] else def
  }
}
