/** Machine integers and the values that travel between the daemon and its clients. */
module Messages {

  type byte = b: int | 0 <= b < 0x100
  type u16 = n: int | 0 <= n < 0x1_0000
  type u32 = n: int | 0 <= n < 0x1_0000_0000

  type Plate = seq<byte>

  /** `speed` is in hundredths of a mile per hour; the source narrows it to 16 bits. */
  datatype Ticket = Ticket(plate: Plate, road: u16, mile1: u16, timestamp1: u32,
                           mile2: u16, timestamp2: u32, speed: nat)

  datatype Message =
    | ErrorM(text: seq<byte>)
    | PlateM(plate: Plate, timestamp: u32)
    | TicketM(ticket: Ticket)
    | WantHeartbeat(interval: u32)
    | Heartbeat
    | IAmCamera(road: u16, mile: u16, limit: u16)
    | IAmDispatcher(roads: seq<u16>)
}
