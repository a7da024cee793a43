/** The shared gesture vocabulary and the per-hand gesture channels
    (`app/lib/gestureState.ts`). */
module GestureState {

  /** The six gesture labels; `None` is the source's 'NONE'. */
  datatype Gesture = None | Pinch | Fist | Open | Spread | Order

  /** The process-wide gesture record: one channel per hand and a derived global one. */
  datatype GestureChannels = GestureChannels(left: Gesture, right: Gesture, global: Gesture)

  const InitialChannels: GestureChannels := GestureChannels(None, None, None)
}
