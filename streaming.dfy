/** The state both scripts keep while reading the streaming list line by
    line: the buckets of URLs filled so far and the current bucket key. */
module Streaming {

  datatype Scan = Scan(buckets: map<string, seq<string>>, key: string)

  /** No bucket and the empty key, before the first line. */
  const Scan0: Scan := Scan(map[], [])
}
