/** The fixed, ordered question bank: ten records, five multiple-choice questions
    followed by five questions with an integer answer. */
module QuestionBank {

  /** A question is either multiple-choice, with option labels keyed by letter and the key
      of the right option, or integer, with the number the user must type. */
  datatype Question =
    | Mcq(question: string, options: map<string, string>, answerKey: string)
    | Integer(question: string, answerValue: int)

  const OptionKeys: set<string> := {"A", "B", "C", "D"}

  const Bank: seq<Question> := [
    Mcq("Which planet is closest to the Sun?",
        map["A" := "Venus", "B" := "Mercury", "C" := "Earth", "D" := "Mars"], "B"),
    Mcq("Which data structure organizes items in a First-In, First-Out (FIFO) manner?",
        map["A" := "Stack", "B" := "Queue", "C" := "Tree", "D" := "Graph"], "B"),
    Mcq("Which of the following is primarily used for structuring web pages?",
        map["A" := "Python", "B" := "Java", "C" := "HTML", "D" := "C++"], "C"),
    Mcq("Which chemical symbol stands for Gold?",
        map["A" := "Au", "B" := "Gd", "C" := "Ag", "D" := "Pt"], "A"),
    Mcq("Which of these processes is not typically involved in refining petroleum?",
        map["A" := "Fractional distillation", "B" := "Cracking", "C" := "Polymerization",
            "D" := "Filtration"], "D"),
    Integer("What is the value of 12 + 28?", 40),
    Integer("How many states are there in the United States?", 50),
    Integer("In which year was the Declaration of Independence signed?", 1776),
    Integer("What is the value of pi rounded to the nearest integer?", 3),
    Integer("If a car travels at 60 mph for 2 hours, how many miles does it travel?", 120)
  ]

  /** A multiple-choice question is well formed when its answer names one of its options. */
  predicate WellFormed(q: Question) {
    q.Mcq? ==> q.answerKey in q.options
  }

  /** Ten questions: indices 0-4 multiple-choice, indices 5-9 integer. */
  lemma BankShape()
    ensures |Bank| == 10
    ensures forall i :: 0 <= i < 5 ==> Bank[i].Mcq?
    ensures forall i :: 5 <= i < 10 ==> Bank[i].Integer?
  {
  }

  /** Every multiple-choice question offers exactly the keys A, B, C and D, and its answer is
      one of them. */
  lemma BankWellFormed()
    ensures forall i :: 0 <= i < |Bank| ==> WellFormed(Bank[i])
    ensures forall i :: 0 <= i < |Bank| && Bank[i].Mcq? ==> Bank[i].options.Keys == OptionKeys
  {
  }
}
