/** The play queue of static/script.js: `addToQueue` appends, `playNextInQueue`
    takes the first song, `removeFromQueue` deletes one position with
    `Array.prototype.splice`. */
module PlayQueue {
  import opened Songs

  /** `addToQueue(song)`: `playbackQueue.push(song)`. */
  function AddToQueue(queue: seq<Song>, song: Song): (r: seq<Song>)
    ensures |r| == |queue| + 1 && r[..|queue|] == queue && r[|queue|] == song
  {
    queue + [song]
  }

  /** What `playNextInQueue` does besides updating the queue. */
  datatype Next = Play(song: Song) | AutoRecommend | Idle

  /** `playNextInQueue(isUserAction)`: the next step and the queue left behind.
      An empty queue asks for a recommendation unless the user pressed "next". */
  function PlayNext(queue: seq<Song>, isUserAction: bool): (r: (Next, seq<Song>))
    ensures |queue| > 0 ==> r.0 == Play(queue[0]) && queue == [queue[0]] + r.1
    ensures |queue| == 0 ==> r.1 == queue && (r.0 == AutoRecommend <==> !isUserAction) && !r.0.Play?
  {
    if |queue| > 0 then (Play(queue[0]), queue[1..])
    else if !isUserAction then (AutoRecommend, queue)
    else (Idle, queue)
  }

  /** First in, first out: adding at the tail does not change which song is
      played next from a non-empty queue, and adding then playing equals playing
      then adding. */
  lemma Fifo(queue: seq<Song>, song: Song, isUserAction: bool)
    ensures var (next, rest) := PlayNext(AddToQueue(queue, song), isUserAction);
            next == (if |queue| > 0 then Play(queue[0]) else Play(song))
            && (|queue| > 0 ==> rest == AddToQueue(PlayNext(queue, isUserAction).1, song))
  {
    if |queue| > 0 {
      assert (queue + [song])[1..] == queue[1..] + [song];
    }
  }

  /** Songs leave the queue in the order they were added. */
  function Drain(queue: seq<Song>): (played: seq<Song>)
    decreases |queue|
  {
    match PlayNext(queue, true)
    case (Play(s), rest) => [s] + Drain(rest)
    case _ => []
  }

  lemma {:induction false} DrainOrder(queue: seq<Song>, songs: seq<Song>)
    ensures Drain(AddAll(queue, songs)) == queue + songs
    decreases |songs|
  {
    if |songs| > 0 {
      DrainOrder(queue + [songs[0]], songs[1..]);
      assert queue + [songs[0]] + songs[1..] == queue + songs;
    } else {
      DrainAll(queue);
    }
  }

  /** Draining a queue plays exactly its songs, in order. */
  lemma {:induction false} DrainAll(queue: seq<Song>)
    ensures Drain(queue) == queue
    decreases |queue|
  {
    if |queue| > 0 {
      DrainAll(queue[1..]);
    }
  }

  /** Adding several songs one after the other. */
  function AddAll(queue: seq<Song>, songs: seq<Song>): seq<Song>
    decreases |songs|
  {
    if |songs| == 0 then queue else AddAll(AddToQueue(queue, songs[0]), songs[1..])
  }

  /** Where `splice(index, 1)` starts deleting: a negative index counts from
      the end, and the start is clamped to the array. */
  function SpliceStart(length: nat, index: int): (start: nat)
    ensures start <= length
  {
    if index < 0 then (if length + index < 0 then 0 else length + index)
    else if index > length then length
    else index
  }

  /** `removeFromQueue(index)`: `playbackQueue.splice(index, 1)`. */
  function RemoveFromQueue(queue: seq<Song>, index: int): (r: seq<Song>)
    ensures 0 <= index < |queue| ==>
              |r| == |queue| - 1 && r == queue[..index] + queue[index + 1..]
              && multiset(r) + multiset{queue[index]} == multiset(queue)
    ensures index >= |queue| ==> r == queue
    ensures -|queue| <= index < 0 ==> r == queue[..|queue| + index] + queue[|queue| + index + 1..]
    ensures index < -|queue| && |queue| > 0 ==> r == queue[1..]
    ensures |queue| == 0 ==> r == queue
  {
    var start := SpliceStart(|queue|, index);
    if start < |queue| then
      var r := queue[..start] + queue[start + 1..];
      assert queue == queue[..start] + [queue[start]] + queue[start + 1..];
      r
    else queue
  }
}
