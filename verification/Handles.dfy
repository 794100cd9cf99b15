/** How transaction handles end: crates/ownpg-core/src/engine.rs. */
module Handles {

  datatype HandleState = Expired | Committed | RolledBack | Lost
}
