/** The sizes of pages and words (entity.hpp, column.hpp). */
module PageSizes {
  const PAGE_SIZE: nat := 4096
  const WORD_BITS: nat := 64
  const PAGE_WORDS: nat := 64
}
