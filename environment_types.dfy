/** `EnvironmentType`: which environment the plugin runs in, read from a
    string. Two named constants; any other string is kept as an unknown type. */
module EnvironmentTypes {
  import opened Wrappers
  import JavaLang

  /** The environment variable the type is read from. */
  const ENV_KEY: string := "HYTALE_ENVIRONMENT"

  /** `EnvironmentType.InnerType`: the known kinds carry a name, UNKNOWN a null. */
  datatype InnerType = DEVELOPMENT | PRODUCTION | UNKNOWN
  {
    function Name(): (r: Option<string>)
      ensures r.None? <==> this == UNKNOWN
    {
      match this
      case DEVELOPMENT => Some("development")
      case PRODUCTION => Some("production")
      case UNKNOWN => None
    }
  }

  datatype EnvironmentType = EnvironmentType(innerType: InnerType, name: string)
  {
    /** `equals`: same inner type and same name. */
    function Equals(that: EnvironmentType): (r: bool)
      ensures r <==> this == that
    {
      innerType == that.innerType && name == that.name
    }

    /** `hashCode`: the name's hash only, whatever the inner type. */
    function HashCode(): (h: int)
      ensures JavaLang.IsInt32(h)
    {
      JavaLang.StringHash(name)
    }
  }

  /** The `DEVELOPMENT` constant: named after its inner type. */
  const Development: EnvironmentType := EnvironmentType(InnerType.DEVELOPMENT, InnerType.DEVELOPMENT.Name().value)

  /** The `PRODUCTION` constant: named after its inner type. */
  const Production: EnvironmentType := EnvironmentType(InnerType.PRODUCTION, InnerType.PRODUCTION.Name().value)

  /** `fromString`: the production constant for its name, else the development
      constant for its name, else an UNKNOWN type carrying the string. */
  function FromString(value: string): (r: EnvironmentType)
    ensures r.name == value
    ensures r == Production <==> value == Production.name
    ensures r == Development <==> value == Development.name
    ensures r.innerType == InnerType.UNKNOWN <==> value != Production.name && value != Development.name
  {
    if Production.name == value then Production
    else if Development.name == value then Development
    else EnvironmentType(InnerType.UNKNOWN, value)
  }

  /** `getDefault()`: production. */
  function GetDefault(): (r: EnvironmentType)
    ensures r.innerType == InnerType.PRODUCTION && r.name == "production"
  {
    Production
  }

  /** `name()`. `fromString` gives back exactly the two constants and the
      unknown types whose name is not a constant's. */
  function Name(t: EnvironmentType): (r: string)
    ensures FromString(r) == t <==>
      t == Production || t == Development
      || (t.innerType == InnerType.UNKNOWN && r != Production.name && r != Development.name)
  {
    t.name
  }

  /** Each known constant is what `fromString` gives for its own name. */
  lemma KnownConstantsRoundTrip()
    ensures FromString(Name(Production)) == Production
    ensures FromString(Name(Development)) == Development
  {
  }

  /** `fromString` never maps two strings to the same type. */
  lemma FromStringInjective(a: string, b: string)
    requires FromString(a).Equals(FromString(b))
    ensures a == b
  {
  }

  /** Values with the same name hash alike, even when their inner types differ;
      in particular `equals` values do. */
  lemma HashDependsOnlyOnName(s: EnvironmentType, t: EnvironmentType)
    requires s.name == t.name
    ensures s.HashCode() == t.HashCode()
  {
  }
}
