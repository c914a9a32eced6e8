/** The parsed configuration document, as yaml_rust's `Yaml` value delivers it.
    A mapping (`Hash`) keeps its entries in document order as a sequence of pairs. */
module YamlValue {

  datatype Yaml =
    | Real(repr: string)
    | Integer(number: int)
    | String(str: string)
    | Boolean(truth: bool)
    | Array(items: seq<Yaml>)
    | Hash(entries: seq<(Yaml, Yaml)>)
    | Alias(id: nat)
    | Null
    | BadValue
}
