// Instants and lengths of time count microseconds.
module Clock {

  const MINUTE: int := 60_000_000

  const DAY: int := 86_400_000_000
}
