/** Waveform timestamps: whole seconds plus a femtosecond offset. */
module TimePoints {

  /** `TimePoint(sec, fs)`; equality is field-wise, as `TimePoint::operator==` compares them in the C++ program. */
  datatype TimePoint = TimePoint(sec: int, fs: int)

  /** The `TimePoint(0, 0)` returned when there is no history. */
  const Zero: TimePoint := TimePoint(0, 0)
}
