/** The message the hbox threads hand to each other (`event`): a command, a flag telling
    whether it concerns a UPnP device or a whole hbox, the name it is about and a free-form
    description. Events travel through the queues by value, so the record is a datatype;
    `EventObject` is the mutable object with the setters. */
module Events {

  datatype Event = Event(command: string, upnpInfo: bool, name: string, description: string)
  {
    /** The event concerns a UPnP device. */
    predicate IsUpnpInfo() {
      upnpInfo
    }

    /** The event concerns a whole hbox: always the opposite of `IsUpnpInfo`. */
    predicate IsHboxInfo() {
      !upnpInfo
    }
  }

  /** The default-constructed event: hbox-level, with empty strings. */
  const DefaultEvent := Event("", false, "", "")

  /** The two level tests are complementary, on every event. */
  lemma LevelsComplement(e: Event)
    ensures e.IsHboxInfo() <==> !e.IsUpnpInfo()
  {
  }

  /** A mutable `event`, as the setters see it. */
  class EventObject {
    var command: string
    var upnpInfo: bool
    var name: string
    var description: string

    /** The record the object currently holds. */
    function Value(): Event
      reads this
    {
      Event(command, upnpInfo, name, description)
    }

    /** `event()`: not about a UPnP device. */
    constructor Default()
      ensures Value() == DefaultEvent
      ensures Value().IsHboxInfo()
    {
      command, upnpInfo, name, description := "", false, "", "";
    }

    /** `event(command, upnpInfo, name, description)`: the getters return the arguments. */
    constructor (command: string, upnpInfo: bool, name: string, description: string)
      ensures Value() == Event(command, upnpInfo, name, description)
    {
      this.command, this.upnpInfo, this.name, this.description := command, upnpInfo, name, description;
    }

    method SetCommand(c: string)
      modifies this
      ensures Value() == old(Value()).(command := c)
    {
      command := c;
    }

    method SetUpnpInfo(b: bool)
      modifies this
      ensures Value() == old(Value()).(upnpInfo := b)
      ensures Value().IsUpnpInfo() == b
    {
      upnpInfo := b;
    }

    /** `setHboxInfo(b)` stores the negation of `b` in the UPnP flag. */
    method SetHboxInfo(b: bool)
      modifies this
      ensures Value() == old(Value()).(upnpInfo := !b)
      ensures Value().IsHboxInfo() == b && Value().IsUpnpInfo() == !b
    {
      upnpInfo := !b;
    }

    method SetName(n: string)
      modifies this
      ensures Value() == old(Value()).(name := n)
    {
      name := n;
    }

    method SetDescription(d: string)
      modifies this
      ensures Value() == old(Value()).(description := d)
    {
      description := d;
    }
  }
}
