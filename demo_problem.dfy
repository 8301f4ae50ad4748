/**
 * The fixed demo problem the two routes share: the problem route falls back to it,
 * and the grade route grades its id without looking at the problem store.
 */
module DemoProblem {
  const DemoId: string := "demo-123"
  const DemoPrompt: string := "What is 2 + 2?"
}
