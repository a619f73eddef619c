/** A recognised speech segment (ai-service/app/models/asr.py). */
module Asr {
  import opened Text

  datatype AsrSegment = AsrSegment(start: real, end: real, text: string, confidence: Option<real>)
}
