/** Value types shared by the entity ingestion layer. */
module Entities {

  /** An entity type, identified by its name (`EntityType.forName`). */
  datatype EntityType = EntityType(name: string)

  /** The entity type a fresh delimited format produces. */
  const RatingType: EntityType := EntityType("rating")

  /** A typed attribute used as a column of a delimited file; its value type is kept by name. */
  datatype Attribute = Attribute(name: string, typeName: string)

  /** The attribute that carries an entity's identifier. */
  const EntityIdAttribute: Attribute := Attribute("id", "long")

  /** A typed attribute name, as described by entity defaults. */
  datatype TypedName = TypedName(name: string, typeName: string)

  /** An entity builder class, as an abstract token: the default one, or a class loaded by name. */
  datatype BuilderClass = BasicEntityBuilder | BuilderNamed(className: string)

  /** An entity's identifier: the line it was read from, or the value parsed from an id column. */
  datatype EntityId<V> = LineNumber(line: int) | FromColumn(value: V)

  /** An entity: its type, its identifier and its other attributes with their values. */
  datatype Entity<V> = Entity(entityType: EntityType, id: EntityId<V>, attributes: map<Attribute, V>)
  {
    /** Set one attribute while building; setting the id attribute replaces the identifier. */
    function SetAttribute(a: Attribute, v: V): (e: Entity<V>)
      ensures e.entityType == entityType
      ensures a == EntityIdAttribute ==> e.id == FromColumn(v) && e.attributes == attributes
      ensures a != EntityIdAttribute ==> e.id == id && a in e.attributes && e.attributes[a] == v
      ensures a != EntityIdAttribute ==> forall b :: b != a ==> (b in e.attributes <==> b in attributes)
      ensures a != EntityIdAttribute ==> forall b :: b != a && b in attributes ==> e.attributes[b] == attributes[b]
    {
      if a == EntityIdAttribute then this.(id := FromColumn(v)) else this.(attributes := attributes[a := v])
    }
  }
}
