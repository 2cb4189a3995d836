/** A Rich panel as an abstract record: what it shows, its border style and its title.
    Layout, padding and colour markup inside the content are not modelled. */
module Panels {
  import opened Wrappers
  import opened Json

  /** One row of a Rich table: its cells, its row style and whether a section
      rule follows it. */
  datatype Row = Row(cells: seq<Json>, style: string, endSection: bool)

  /** The values the battery panel shows, read out of the power data. */
  datatype BatteryReadings = BatteryReadings(
    percent: int,
    charging: bool,
    warning: bool,
    health: Json,
    maxCapacity: Json,
    cycleCount: Json,
    chargerConnected: bool,
    chargerWatts: Json)

  datatype Content =
    | Text(markup: string)                             // a plain message
    | Clock(bigTime: string, uptime: string)           // the big clock and the uptime line
    | Battery(bar: string, readings: BatteryReadings, updatedAt: int)  // the bar, its readings, the cache time
    | Table(rows: seq<Row>)                            // a table of rows

  datatype Panel = Panel(content: Content, borderStyle: string, title: Option<string>)
}
