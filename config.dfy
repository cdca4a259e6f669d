/** The parsed configuration the engine reads: entity sets, entities,
    states and the global constants. */
module Config {
  import opened Values
  import opened Timers
  import opened Sampling
  import opened Transitions

  /** An entity set: the entity type to create, the cardinality (a literal
      or an attribute name) and the spawn timer. */
  datatype EntitySetConfig = EntitySetConfig(entity: string, cardinality: string, timer: Timer)

  /** An entity type: attributes sampled on creation, subordinate entity
      sets, and the initial state ("" for none). */
  datatype EntityConfig = EntityConfig(
    attributes: map<string, AttributeSpec>,
    subordinates: seq<EntitySetConfig>,
    initialState: string)

  /** A state: attributes sampled on every visit, the dwell timer and the
      outgoing transitions. */
  datatype StateConfig = StateConfig(
    attributes: map<string, AttributeSpec>,
    timer: Timer,
    transitions: seq<Transition>)

  datatype SimulationConfig = SimulationConfig(
    entities: map<string, EntityConfig>,
    states: map<string, StateConfig>,
    rootEntities: seq<EntitySetConfig>,
    constants: Attributes)

  const NoEntity: EntityConfig := EntityConfig(map[], [], "")
}
