/** The values database/sql hands to a Scan method, as far as the codecs tell them apart. */
module Driver {
  import Calendar

  datatype SqlValue =
    | SqlTime(time: Calendar.Time)   // a time.Time
    | SqlText(text: string)          // a string
    | SqlOther(kind: string)         // anything else ([]byte, int64, nil, ...)
}
