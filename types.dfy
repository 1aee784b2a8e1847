/** The records of types/index.ts that the public listing pages use.
    The TypeScript `number` fields are `int`: fractional values and
    floating-point sums are not modelled. */
module PortalTypes {

  datatype ArchitectStatus = Active | Suspended | Pending {
    /** The string the TypeScript union uses for this status. */
    function Name(): string {
      match this
      case Active => "active"
      case Suspended => "suspended"
      case Pending => "pending"
    }
  }

  datatype Architect = Architect(
    id: string,
    firstName: string,
    lastName: string,
    email: string,
    phone: string,
    city: string,
    photo: string,
    specialties: seq<string>,
    registrationNumber: string,
    status: ArchitectStatus,
    joinDate: string,
    projects: int)

  datatype CallStatus = Open | Closed | Awarded {
    function Name(): string {
      match this
      case Open => "open"
      case Closed => "closed"
      case Awarded => "awarded"
    }
  }

  datatype CallCategory = Public | Private {
    function Name(): string {
      match this
      case Public => "public"
      case Private => "private"
    }
  }

  datatype ProjectCall = ProjectCall(
    id: string,
    title: string,
    description: string,
    client: string,
    budget: int,
    deadline: string,
    location: string,
    requirements: seq<string>,
    status: CallStatus,
    publishDate: string,
    applicationDeadline: string,
    category: CallCategory,
    surface: int)

  datatype EventCategory = Conference | Formation | Meeting | Visit {
    function Name(): string {
      match this
      case Conference => "conference"
      case Formation => "formation"
      case Meeting => "meeting"
      case Visit => "visit"
    }
  }

  datatype EventStatus = Upcoming | Completed | Cancelled {
    function Name(): string {
      match this
      case Upcoming => "upcoming"
      case Completed => "completed"
      case Cancelled => "cancelled"
    }
  }

  datatype Event = Event(
    id: string,
    title: string,
    description: string,
    date: string,
    time: string,
    location: string,
    address: string,
    organizer: string,
    category: EventCategory,
    capacity: int,
    registeredCount: int,
    price: int,
    status: EventStatus,
    image: string)
}
