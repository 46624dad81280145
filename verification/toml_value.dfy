/** The values that the witness printer is given, and which of them TOML admits. */
module TomlValue {
  type CodeUnit = u: nat | u < 0x1_0000
  type Units = seq<CodeUnit>

  datatype Value =
    | Bool(b: bool)
    | Number(n: int)
    | Text(s: Units)
    | Array(items: seq<Value>)
    | Table(entries: seq<Entry>)
    | Unprintable

  /** Own properties in Object.entries order. */
  datatype Entry = Entry(key: Units, value: Value)

  predicate IsDigitUnit(u: CodeUnit) {
    0x30 <= u <= 0x39
  }

  /** Letters, digits, underscore and dash: a bare key of TOML v1.0.0. */
  predicate IsBare(u: CodeUnit) {
    IsDigitUnit(u) || 0x41 <= u <= 0x5A || 0x61 <= u <= 0x7A || u == 0x5F || u == 0x2D
  }

  predicate IsBareKey(key: Units) {
    key != [] && forall u | u in key :: IsBare(u)
  }

  predicate BareKeys(value: Value)
    decreases value, 1
  {
    match value
    case Array(items) => forall v | v in items :: BareKeys(v)
    case Table(entries) => EntriesBare(entries)
    case _ => true
  }

  predicate EntriesBare(entries: seq<Entry>)
    decreases entries, 0
  {
    forall e | e in entries :: IsBareKey(e.key) && BareKeys(e.value)
  }
}
