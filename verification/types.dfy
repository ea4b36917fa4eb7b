/**
 * The records the dashboard reads from the store (src/types/index.ts).
 *
 * Timestamps are read as strings and only ever compared through
 * `new Date(s).getTime()`; the model keeps that number, a `Time` in milliseconds.
 * Vital signs are JavaScript numbers and are modelled as `real`.
 */
module Types {
  import opened Wrappers

  type Time = int

  datatype UserSummary = UserSummary(
    id: string,
    name: string,
    building_room: Option<string>,
    status: Option<string>)

  datatype DailyRecord = DailyRecord(
    id: int,
    user_id: string,
    staff_id: Option<string>,
    record_time: Time,
    body_temp: Option<real>,
    bp_high: Option<real>,
    bp_low: Option<real>,
    pulse: Option<real>,
    spo2: Option<real>,
    excretion_urine: Option<string>,
    meal_amount: Option<string>)

  datatype ChatLog = ChatLog(
    id: int,
    user_id: string,
    staff_name: Option<string>,
    message: Option<string>,
    send_time: Time,
    category_tag: Option<string>)

  /** One entry of a merged timeline: a vital record or a chat log, with the time it is ordered by. */
  datatype TimelineItem =
    | DailyRecordItem(time: Time, record: DailyRecord)
    | ChatLogItem(time: Time, log: ChatLog)
}
