/**
 * The canonical, provider-independent event record that every provider's
 * normaliser produces and the feed stores. Times are instants in
 * milliseconds since the epoch; `formattedTime` is the display string the
 * configured formatter produced for `startTime`.
 */
module Canonical {
  import opened Js

  datatype Event = Event(
    id: string,
    name: string,
    description: string,
    location: string,
    url: string,
    groupId: Option<int>,        // Meetup only
    groupName: string,
    groupUrl: string,
    formattedTime: string,
    startTime: int,
    endTime: int,
    yesRsvpCount: Option<int>)   // Meetup only
}
