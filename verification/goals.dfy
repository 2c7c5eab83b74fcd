/** What a user asks for, and the venue it is about. */
module Goals {
  import opened Options
  import SlotRanking

  datatype Date = Date(year: nat, month: nat, day: nat)

  type WallTime = w: SlotRanking.WallTime | 0 <= w.hour && 0 <= w.minute && 0 <= w.second
    witness SlotRanking.WallTime(0, 0, 0)

  datatype VenueQuery = NoQuery | ByUrl(url: string) | BySlug(slug: string, city: string) | ByName(name: string)

  /** priority is the source's int: 1 is earlier, 2 is later, anything else is none. */
  datatype TimeWindow = TimeWindow(start: WallTime, end: WallTime, priority: int)

  datatype Constraints = Constraints(tableTypes: seq<string>, anyTable: bool)

  datatype Goal = Goal(
    query: VenueQuery, date: Date, party: int, timePrefs: TimeWindow, account: string, constraints: Constraints)

  datatype Venue = Venue(provider: string, ref: string, name: string, tz: Option<string>)
}
