/** The mutable holders of spock/backend/spaces.py: a `ConfigSpace` pairs a spock
    class with the dict of field values being collected for it, an
    `AttributeSpace` reads and writes one attribute's entry of that dict, and a
    `BuilderSpace` carries the parsed arguments and the `spock_space` of built
    instances. */
module Spaces {
  import opened Results
  import opened Dicts
  import opened Values
  import opened Types

  class ConfigSpace {
    const spockCls: SpockClass
    var fields: Items

    constructor(spockCls: SpockClass, fields: Items)
      ensures this.spockCls == spockCls && this.fields == fields
    {
      this.spockCls := spockCls;
      this.fields := fields;
    }

    /** `name`: the wrapped class's name. */
    function Name(): (r: string)
      ensures r == spockCls.name
    {
      spockCls.name
    }
  }

  class AttributeSpace {
    const attribute: Attribute
    const configSpace: ConfigSpace

    constructor(attribute: Attribute, configSpace: ConfigSpace)
      ensures this.attribute == attribute && this.configSpace == configSpace
    {
      this.attribute := attribute;
      this.configSpace := configSpace;
    }

    /** The `field` getter: the attribute's entry in the shared fields dict,
        KeyError while it has none. */
    function Field(): (r: Result<Value>)
      reads configSpace
      ensures r.Ok? <==> HasKey(configSpace.fields, attribute.name)
      ensures r.Ok? ==> Lookup(configSpace.fields, attribute.name) == Some(r.value)
      ensures r.Err? ==> r.exc == KeyError
    {
      match Lookup(configSpace.fields, attribute.name)
      case Some(v) => Ok(v)
      case None => Err(KeyError)
    }

    /** The `field` setter: writes the attribute's entry and no other. */
    method SetField(v: Value)
      modifies configSpace
      ensures configSpace.fields == Put(old(configSpace.fields), attribute.name, v)
      ensures Field() == Ok(v)
      ensures forall k :: k != attribute.name ==> Lookup(configSpace.fields, k) == Lookup(old(configSpace.fields), k)
    {
      configSpace.fields := Put(configSpace.fields, attribute.name, v);
      forall k | k != attribute.name
        ensures Lookup(configSpace.fields, k) == Lookup(old(configSpace.fields), k)
      {
        LookupPut(old(configSpace.fields), attribute.name, v, k);
      }
      LookupPut(old(configSpace.fields), attribute.name, v, attribute.name);
    }
  }

  /** `BuilderSpace(arguments, spock_space)` */
  class BuilderSpace {
    const arguments: Items
    var spockSpace: Items

    constructor(arguments: Items, spockSpace: Items)
      ensures this.arguments == arguments && this.spockSpace == spockSpace
    {
      this.arguments := arguments;
      this.spockSpace := spockSpace;
    }
  }

  /** Attribute spaces over one config space share its fields: a write through
      one is what another reads for the same name, and leaves the others' entries alone. */
  method SharedFields(a: AttributeSpace, b: AttributeSpace, v: Value) returns (seen: Result<Value>)
    requires a.configSpace == b.configSpace
    modifies a.configSpace
    ensures b.attribute.name == a.attribute.name ==> seen == Ok(v)
    ensures b.attribute.name != a.attribute.name ==> seen == old(b.Field())
  {
    a.SetField(v);
    seen := b.Field();
  }
}
