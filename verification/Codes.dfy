/** The codes by which the allocator's page table describes a page; those of the size classes are
    below them. */
module Codes {
  const BIG := 26
  const FREE := 1
  const MIDDLE := 28
  const BASE := 30
  const VACANT := BIG + FREE
}
