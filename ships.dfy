/** The Ship entity as the service and the controller see it.

    Every field of the Java entity is a nullable wrapper (Long, String, Date,
    Double, Boolean, Integer), so every field here is an Option: a request body
    may leave any of them out.  A production date is its instant in epoch
    milliseconds, speed and rating are reals. */
module Ships {

  datatype Option<+T> = None | Some(value: T) {

    /** The wrapped value, or `default` when absent */
    function GetOr(default: T): T {
      match this
      case Some(v) => v
      case None => default
    }
  }

  /** The ship categories; only equality between them is ever used. */
  datatype ShipType = Transport | Military | Merchant

  datatype Ship = Ship(
    id: Option<int>,
    name: Option<string>,
    planet: Option<string>,
    shipType: Option<ShipType>,
    prodDate: Option<int>,
    speed: Option<real>,
    used: Option<bool>,
    crewSize: Option<int>,
    rating: Option<real>)

  /** A request body with every field left out. */
  const EmptyShip := Ship(None, None, None, None, None, None, None, None, None)
}
